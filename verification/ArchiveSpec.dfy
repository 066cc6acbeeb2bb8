/** The archive sink (federate/archivesink.go) as a step machine over values.

    The archive is uncapped, a failed append appends nothing, and no record is too deep to store. */
module ArchiveSpec {
  import opened Text
  import opened Store

  /** A record's dedup identity, as the bytes its digest is taken of. */
  type Id = seq<int>

  /** visible says whether the exact query for the record's identity finds the record once it is held; the
      loaded set counts it either way. */
  datatype Rec = Rec(id: Option<Id>, visible: bool, data: string)

  /** An archived record and the (folded) schedd it is filed under. */
  datatype Entry = Entry(schedd: string, rec: Rec)

  /** A resume cursor: empty, or how many of the source archive's records it covers. */
  datatype Cursor = Empty | At(pos: nat)

  datatype Change =
    | Upsert(rec: Option<Rec>, cursor: Cursor)
    | Other(cursor: Cursor)          // a delete or a gap: nothing to remove
    | Reset(cursor: Cursor)
    | Synced(cursor: Cursor)

  /** The store outcomes one call meets: appending, syncing, saving and clearing the cursor, and
      whether the dedup query could be read. */
  datatype Faults = Faults(append: bool, sync: Outcome, save: Outcome, clear: Outcome, read: bool)

  /** arch[..synced] is durable. */
  datatype World = World(arch: seq<Entry>, synced: nat, durable: Cursor)

  /** budget is probeBudget: how many identities a Reset replay probes before it loads the set. */
  datatype Sink = Sink(schedd: string, budget: nat, catchup: bool, full: bool, probes: nat, remaining: map<Id, nat>,
                       setLoaded: bool, nextCur: Cursor, failed: bool, appended: bool, cur: Cursor)

  datatype Done = Done(w: World, s: Sink, ok: bool)

  // ---------------------------------------------------------------------------------------
  // Counting what the hub holds.

  predicate Mine(e: Entry, schedd: string, id: Id) { e.schedd == schedd && e.rec.id == Some(id) }

  /** The hub's records of one identity, oldest first. */
  function Held(arch: seq<Entry>, schedd: string, id: Id): seq<Rec> {
    if arch == [] then []
    else
      var last := arch[|arch| - 1];
      Held(arch[..|arch| - 1], schedd, id) + (if Mine(last, schedd, id) then [last.rec] else [])
  }

  function Visible(recs: seq<Rec>): seq<Rec> {
    if recs == [] then []
    else Visible(recs[..|recs| - 1]) + if recs[|recs| - 1].visible then [recs[|recs| - 1]] else []
  }

  /** countHeld: the exact query, which counts only the records it finds. */
  function CountHeld(arch: seq<Entry>, schedd: string, id: Id): nat { |Visible(Held(arch, schedd, id))| }

  /** The loaded set's count: every record. */
  function CountAll(arch: seq<Entry>, schedd: string, id: Id): nat { |Held(arch, schedd, id)| }

  /** The identities this schedd has in the archive. */
  function HeldIds(arch: seq<Entry>, schedd: string): set<Id> {
    set e | e in arch && e.schedd == schedd && e.rec.id.Some? :: e.rec.id.value
  }

  /** loadIdentities: every count at once, but one the catch-up has met keeps its running count. */
  function Load(remaining: map<Id, nat>, arch: seq<Entry>, schedd: string): map<Id, nat> {
    map id | id in remaining.Keys + HeldIds(arch, schedd) ::
      if id in remaining then remaining[id] else CountAll(arch, schedd, id)
  }

  // ---------------------------------------------------------------------------------------
  // Dedup.

  /** held: the sink after the look-up, and whether the record was matched; None on a read error. */
  function LookUp(w: World, s: Sink, id: Id, read: bool): (Sink, Option<bool>) {
    if id in s.remaining || s.setLoaded then
      Consume(s, id, if id in s.remaining then s.remaining[id] else 0)
    else if s.full && s.probes >= s.budget then
      if !read then (s, None)
      else
        var s1 := s.(remaining := Load(s.remaining, w.arch, s.schedd), setLoaded := true);
        Consume(s1, id, if id in s1.remaining then s1.remaining[id] else 0)
    else
      var s1 := s.(probes := s.probes + 1);
      if !read then (s1, None) else Consume(s1, id, CountHeld(w.arch, s.schedd, id))
  }

  function Consume(s: Sink, id: Id, n: nat): (Sink, Option<bool>) {
    if n == 0 then (s.(remaining := s.remaining[id := 0]), Some(false))
    else (s.(remaining := s.remaining[id := n - 1]), Some(true))
  }

  function StartCatchup(s: Sink): Sink {
    s.(catchup := true, full := false, probes := 0, remaining := map[], setLoaded := false)
  }

  function EndCatchup(s: Sink): Sink {
    s.(catchup := false, full := false, probes := 0, remaining := map[], setLoaded := false)
  }

  // ---------------------------------------------------------------------------------------
  // Steps.

  function Append(w: World, s: Sink, rec: Rec, ok: bool): Done {
    if !ok then Done(w, s, false)
    else Done(w.(arch := w.arch + [Entry(s.schedd, rec)]), s.(appended := true), true)
  }

  function TakeRecord(w: World, s: Sink, rec: Rec, f: Faults): Done {
    if !s.catchup || rec.id.None? then Append(w, s, rec, f.append)
    else
      var (s1, held) := LookUp(w, s, rec.id.value, f.read);
      match held
      case None => Done(w, s1, false)
      case Some(true) => Done(w, s1, true)
      case Some(false) => Append(w, s1, rec, f.append)
  }

  function SyncData(w: World, s: Sink, o: Outcome): Done {
    if !s.appended then Done(w, s, true)
    else
      match o
      case Succeeded => Done(w.(synced := |w.arch|), s.(appended := false), true)
      case FailedClean => Done(w, s, false)
      case FailedDirty => Done(w.(synced := |w.arch|), s, false)
  }

  function SaveCursor(w: World, s: Sink, o: Outcome): Done {
    if s.nextCur == Empty then Done(w, s, true)
    else
      var s1 := s.(nextCur := Empty);
      match o
      case Succeeded => Done(w.(durable := s.nextCur), s1.(cur := s.nextCur), true)
      case FailedClean => Done(w, s1, false)
      case FailedDirty => Done(w.(durable := s.nextCur), s1, false)
  }

  /** flush: sync the appends, then commit the cursor that covers them. */
  function Flush(w: World, s: Sink, f: Faults): Done {
    var r := SyncData(w, s, f.sync);
    if !r.ok then r else SaveCursor(r.w, r.s, f.save)
  }

  function ClearCursor(w: World, s: Sink, o: Outcome): Done {
    match o
    case Succeeded => Done(w.(durable := Empty), s.(cur := Empty), true)
    case FailedClean => Done(w, s, false)
    case FailedDirty => Done(w.(durable := Empty), s, false)
  }

  function NoteCursor(s: Sink, c: Cursor): Sink { if c == Empty then s else s.(nextCur := c) }

  function ApplyInner(w: World, s: Sink, c: Change, f: Faults): Done {
    match c
    case Upsert(None, cur) => Done(w, NoteCursor(s, cur), true)
    case Upsert(Some(rec), cur) =>
      var r := TakeRecord(w, s, rec, f);
      if !r.ok then r else r.(s := NoteCursor(r.s, cur))
    case Other(cur) => Done(w, NoteCursor(s, cur), true)
    case Reset(cur) =>
      var r := Flush(w, s, f);
      if !r.ok then r
      else
        var r1 := ClearCursor(r.w, r.s, f.clear);
        if !r1.ok then r1 else r1.(s := NoteCursor(StartCatchup(r1.s).(full := true), cur))
    case Synced(cur) => Flush(w, NoteCursor(EndCatchup(s), cur), f)
  }

  function Fail(s: Sink): Sink { s.(nextCur := Empty, failed := true) }

  function Apply(w: World, s: Sink, c: Change, f: Faults): Done {
    if s.failed then Done(w, s, false)
    else
      var r := ApplyInner(w, s, c, f);
      if r.ok then r else r.(s := Fail(r.s))
  }

  function FlushCall(w: World, s: Sink, f: Faults): Done {
    if s.failed then Done(w, s, false)
    else
      var r := Flush(w, s, f);
      if r.ok then r else r.(s := Fail(r.s))
  }

  function BeginSession(s: Sink): Sink { StartCatchup(s.(nextCur := Empty, failed := false)) }

  function EndSession(s: Sink): Sink { EndCatchup(s) }

  function NewSink(schedd: string, budget: nat, stored: Cursor): Sink {
    Sink(schedd, budget, true, false, 0, map[], false, Empty, false, false, stored)
  }
}
