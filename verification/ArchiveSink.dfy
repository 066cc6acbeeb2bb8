/** The archive sink object: its methods change its fields, the archive and the cursor cell as the
    code does, and each ends in the state its step function gives. */
module ArchiveSink {
  import opened Text
  import opened Store
  import A = ArchiveSpec
  import opened ArchiveSpec
  import R = ArchiveRun

  class Archive {
    var arch: seq<Entry>
    var synced: nat

    constructor (initial: seq<Entry>)
      ensures arch == initial && synced == |initial|
    {
      arch, synced := initial, |initial|;
    }
  }

  class CursorCell {
    var stored: Cursor

    constructor (initial: Cursor)
      ensures stored == initial
    {
      stored := initial;
    }
  }

  class ArchiveSink {
    const schedd: string
    const budget: nat
    const archive: Archive
    const store: CursorCell
    var catchup: bool
    var full: bool
    var probes: nat
    var remaining: map<Id, nat>
    var setLoaded: bool
    var nextCur: Cursor
    var failed: bool
    var appended: bool
    var cur: Cursor

    ghost function S(): Sink
      reads this
    {
      Sink(schedd, budget, catchup, full, probes, remaining, setLoaded, nextCur, failed, appended, cur)
    }

    ghost function W(): World
      reads archive, store
    {
      World(archive.arch, archive.synced, store.stored)
    }

    constructor (name: string, probeBudget: nat, a: Archive, cell: CursorCell)
      ensures S() == NewSink(name, probeBudget, cell.stored) && archive == a && store == cell
    {
      schedd, budget, archive, store := name, probeBudget, a, cell;
      catchup, full, probes, remaining, setLoaded := true, false, 0, map[], false;
      nextCur, failed, appended, cur := Empty, false, false, cell.stored;
    }

    method StartCatchup()
      modifies this
      ensures S() == A.StartCatchup(old(S()))
    {
      catchup, full, probes, remaining, setLoaded := true, false, 0, map[], false;
    }

    method EndCatchup()
      modifies this
      ensures S() == A.EndCatchup(old(S()))
    {
      catchup, full, probes, remaining, setLoaded := false, false, 0, map[], false;
    }

    method BeginSession()
      modifies this
      ensures S() == A.BeginSession(old(S()))
    {
      nextCur, failed := Empty, false;
      StartCatchup();
    }

    method EndSession()
      modifies this
      ensures S() == A.EndSession(old(S()))
    {
      EndCatchup();
    }

    method RecordFailure()
      modifies this
      ensures S() == Fail(old(S()))
    {
      nextCur := Empty;
      failed := true;
    }

    /** countHeld: run the exact query and count its rows. */
    method CountHeld(id: Id) returns (n: nat)
      ensures n == A.CountHeld(archive.arch, schedd, id)
    {
      n := 0;
      assert archive.arch[..0] == [];
      for i := 0 to |archive.arch|
        invariant n == A.CountHeld(archive.arch[..i], schedd, id)
      {
        assert archive.arch[..i + 1] == archive.arch[..i] + [archive.arch[i]];
        R.HeldSnoc(archive.arch[..i], archive.arch[i], schedd, id);
        VisibleSnoc(Held(archive.arch[..i], schedd, id), archive.arch[i].rec);
        assert Held(archive.arch[..i], schedd, id) + [] == Held(archive.arch[..i], schedd, id);
        if Mine(archive.arch[i], schedd, id) && archive.arch[i].rec.visible {
          n := n + 1;
        }
      }
      assert archive.arch[..|archive.arch|] == archive.arch;
    }

    /** The scan of loadIdentities: every identity of this schedd with its count. */
    method ScanIdentities() returns (loaded: map<Id, nat>)
      ensures loaded.Keys == HeldIds(archive.arch, schedd)
      ensures forall id :: id in loaded ==> loaded[id] == A.CountAll(archive.arch, schedd, id)
    {
      hide Mine;
      loaded := map[];
      for i := 0 to |archive.arch|
        invariant loaded.Keys == HeldIds(archive.arch[..i], schedd)
        invariant forall id :: id in loaded ==> loaded[id] == A.CountAll(archive.arch[..i], schedd, id)
      {
        var e := archive.arch[i];
        assert archive.arch[..i + 1] == archive.arch[..i] + [e];
        ScanStep(archive.arch[..i], e, schedd);
        if e.schedd == schedd && e.rec.id.Some? {
          var id := e.rec.id.value;
          loaded := loaded[id := (if id in loaded then loaded[id] else 0) + 1];
        }
      }
      assert archive.arch[..|archive.arch|] == archive.arch;
    }

    /** The fill of loadIdentities: a count already running wins. */
    method MergeCounts(was: map<Id, nat>, loaded: map<Id, nat>) returns (m: map<Id, nat>)
      ensures m.Keys == was.Keys + loaded.Keys
      ensures forall id :: id in m ==> m[id] == if id in was then was[id] else loaded[id]
    {
      m := was;
      var todo := loaded.Keys;
      while todo != {}
        invariant todo <= loaded.Keys
        invariant m.Keys == was.Keys + (loaded.Keys - todo)
        invariant forall id :: id in m ==> m[id] == if id in was then was[id] else loaded[id]
        decreases todo
      {
        var id :| id in todo;
        if id !in m {
          m := m[id := loaded[id]];
        }
        todo := todo - {id};
      }
    }

    /** loadIdentities: an identity the catch-up has met keeps its running count. */
    method LoadIdentities()
      modifies this
      ensures S() == old(S()).(remaining := Load(old(remaining), archive.arch, schedd), setLoaded := true)
    {
      hide A.CountAll, HeldIds;
      var loaded := ScanIdentities();
      remaining := MergeCounts(remaining, loaded);
      assert remaining == Load(old(remaining), archive.arch, schedd);
      setLoaded := true;
    }

    /** held: None is a read error. */
    method TestHeld(id: Id, read: bool) returns (held: Option<bool>)
      modifies this
      ensures (S(), held) == LookUp(old(W()), old(S()), id, read)
    {
      hide Load, A.CountHeld, A.CountAll;
      var n := if id in remaining then remaining[id] else 0;
      if id !in remaining && !setLoaded {
        if full && probes >= budget {
          if !read {
            return None;
          }
          LoadIdentities();
          n := if id in remaining then remaining[id] else 0;
        } else {
          probes := probes + 1;
          if !read {
            return None;
          }
          n := CountHeld(id);
        }
      }
      if n == 0 {
        remaining := remaining[id := 0];
        return Some(false);
      }
      remaining := remaining[id := n - 1];
      held := Some(true);
    }

    method AppendRecord(rec: Rec, ok: bool) returns (r: bool)
      modifies this, archive
      ensures Done(W(), S(), r) == Append(old(W()), old(S()), rec, ok)
    {
      if !ok {
        return false;
      }
      archive.arch := archive.arch + [Entry(schedd, rec)];
      appended := true;
      r := true;
    }

    method Take(rec: Rec, f: Faults) returns (ok: bool)
      modifies this, archive
      ensures Done(W(), S(), ok) == TakeRecord(old(W()), old(S()), rec, f)
    {
      hide LookUp;
      if catchup && rec.id.Some? {
        var held := TestHeld(rec.id.value, f.read);
        if held.None? {
          return false;
        }
        if held.value {
          return true;
        }
      }
      ok := AppendRecord(rec, f.append);
    }

    method FlushAll(f: Faults) returns (ok: bool)
      modifies this, archive, store
      ensures Done(W(), S(), ok) == A.Flush(old(W()), old(S()), f)
    {
      if appended {
        if f.sync != FailedClean {
          archive.synced := |archive.arch|;
        }
        if f.sync != Succeeded {
          return false;
        }
        appended := false;
      }
      if nextCur == Empty {
        return true;
      }
      var c := nextCur;
      nextCur := Empty;
      if f.save != FailedClean {
        store.stored := c;
      }
      if f.save != Succeeded {
        return false;
      }
      cur := c;
      ok := true;
    }

    method ApplyChange(c: Change, f: Faults) returns (ok: bool)
      modifies this, archive, store
      ensures Done(W(), S(), ok) == ApplyInner(old(W()), old(S()), c, f)
    {
      hide TakeRecord, A.Flush;
      match c {
        case Upsert(None, _) =>
        case Upsert(Some(rec), _) =>
          ok := Take(rec, f);
          if !ok {
            return false;
          }
        case Other(_) =>
        case Reset(_) =>
          ok := FlushAll(f);
          if !ok {
            return false;
          }
          if f.clear != FailedClean {
            store.stored := Empty;
          }
          if f.clear != Succeeded {
            return false;
          }
          cur := Empty;
          StartCatchup();
          full := true;
        case Synced(_) =>
          EndCatchup();
      }
      if c.cursor != Empty {
        nextCur := c.cursor;
      }
      if c.Synced? {
        ok := FlushAll(f);
      } else {
        ok := true;
      }
    }

    method Apply(c: Change, f: Faults) returns (ok: bool)
      modifies this, archive, store
      ensures Done(W(), S(), ok) == A.Apply(old(W()), old(S()), c, f)
    {
      hide ApplyInner;
      if failed {
        return false;
      }
      ok := ApplyChange(c, f);
      if !ok {
        RecordFailure();
      }
    }

    method Flush(f: Faults) returns (ok: bool)
      modifies this, archive, store
      ensures Done(W(), S(), ok) == FlushCall(old(W()), old(S()), f)
    {
      hide A.Flush;
      if failed {
        return false;
      }
      ok := FlushAll(f);
      if !ok {
        RecordFailure();
      }
    }
  }

  lemma {:induction false} VisibleSnoc(recs: seq<Rec>, r: Rec)
    ensures Visible([]) == []
    ensures Visible(recs + [r]) == Visible(recs) + if r.visible then [r] else []
  {
    assert (recs + [r])[..|recs|] == recs;
  }

  /** One more scanned record: its identity is known, and its count is one more. */
  lemma {:induction false} ScanStep(arch: seq<Entry>, e: Entry, schedd: string)
    ensures HeldIds(arch + [e], schedd) ==
            HeldIds(arch, schedd) + (if e.schedd == schedd && e.rec.id.Some? then {e.rec.id.value} else {})
    ensures forall id :: A.CountAll(arch + [e], schedd, id) ==
                         A.CountAll(arch, schedd, id) + (if e.schedd == schedd && e.rec.id == Some(id) then 1 else 0)
    ensures forall id :: id !in HeldIds(arch, schedd) ==> A.CountAll(arch, schedd, id) == 0
  {
    forall id ensures A.CountAll(arch + [e], schedd, id) ==
                      A.CountAll(arch, schedd, id) + (if e.schedd == schedd && e.rec.id == Some(id) then 1 else 0)
    {
      R.HeldSnoc(arch, e, schedd, id);
    }
    forall id | id !in HeldIds(arch, schedd) ensures A.CountAll(arch, schedd, id) == 0 {
      R.HeldAbsent(arch, schedd, id);
    }
    var ids := HeldIds(arch + [e], schedd);
    forall id ensures id in ids <==> id in HeldIds(arch, schedd) || (e.schedd == schedd && e.rec.id == Some(id)) {
      if id in HeldIds(arch, schedd) {
        var x :| x in arch && x.schedd == schedd && x.rec.id.Some? && x.rec.id.value == id;
        assert x in arch + [e];
      }
      if e.schedd == schedd && e.rec.id == Some(id) {
        assert e in arch + [e];
      }
    }
  }
}
