/** The table sink object: its methods change its fields, the hub table and the cursor cell in the
    order the code does, and each ends in the state its step function gives. */
module TableSink {
  import opened Text
  import opened Store
  import HubKey
  import T = TableSpec
  import opened TableSpec

  class HubTable {
    var rows: Rows

    constructor (initial: Rows)
      ensures rows == initial
    {
      rows := initial;
    }
  }

  class CursorCell {
    var stored: Cursor

    constructor (initial: Cursor)
      ensures stored == initial
    {
      stored := initial;
    }
  }

  class TableSink {
    const schedd: string
    const status: bool
    const hub: HubTable
    const store: CursorCell
    var tx: Option<Txn>
    var pending: nat
    var nextCur: Cursor
    var failed: bool
    var catchup: bool
    var resetting: bool
    var touched: set<string>
    var cur: Cursor

    ghost function S(): Sink
      reads this
    {
      Sink(schedd, status, tx, pending, nextCur, failed, catchup, resetting, touched, cur)
    }

    ghost function W(): World
      reads hub, store
    {
      World(hub.rows, store.stored)
    }

    constructor (name: string, syncstatus: bool, table: HubTable, cell: CursorCell)
      ensures S() == NewSink(name, syncstatus, cell.stored) && hub == table && store == cell
    {
      schedd, status, hub, store := name, syncstatus, table, cell;
      tx, pending, nextCur, failed := None, 0, Empty, false;
      catchup, resetting, touched, cur := true, false, {}, cell.stored;
    }

    method BeginSession()
      modifies this
      ensures S() == T.BeginSession(old(S()))
    {
      DropBatch();
      failed := false;
      catchup := true;
    }

    method EndSession()
      modifies this
      ensures S() == T.EndSession(old(S()))
    {
      resetting, touched := false, {};
    }

    method DropBatch()
      modifies this
      ensures S() == Discard(old(S()))
    {
      tx := None;
      pending, nextCur := 0, Empty;
    }

    method RecordFailure()
      modifies this
      ensures S() == Fail(old(S()))
    {
      DropBatch();
      failed := true;
    }

    /** The store's commit of a transaction. */
    method StoreCommit(t: Txn, o: Outcome) returns (ok: bool)
      modifies hub
      ensures ok == (o == Succeeded)
      ensures hub.rows == if o == FailedClean then old(hub.rows) else Commit(old(hub.rows), t)
    {
      if o != FailedClean {
        hub.rows := Commit(hub.rows, t);
      }
      ok := o == Succeeded;
    }

    /** The cursor store's Save. */
    method StoreSave(c: Cursor, o: Outcome) returns (ok: bool)
      modifies store
      ensures ok == (o == Succeeded)
      ensures store.stored == if o == FailedClean then old(store.stored) else c
    {
      if o != FailedClean {
        store.stored := c;
      }
      ok := o == Succeeded;
    }

    method CommitTxn(o: Outcome) returns (ok: bool)
      modifies this, hub
      ensures Done(W(), S(), ok) == T.CommitTxn(old(W()), old(S()), o)
    {
      if tx.None? {
        return true;
      }
      var t := tx.value;
      tx, pending := None, 0;
      ok := StoreCommit(t, o);
    }

    method SaveCursor(o: Outcome) returns (ok: bool)
      modifies this, store
      ensures Done(W(), S(), ok) == T.SaveCursor(old(W()), old(S()), o)
    {
      if nextCur == Empty {
        return true;
      }
      var c := nextCur;
      nextCur := Empty;
      ok := StoreSave(c, o);
      if ok {
        cur := c;
      }
    }

    method FlushBatch(f: Faults) returns (ok: bool)
      modifies this, hub, store
      ensures Done(W(), S(), ok) == T.Flush(old(W()), old(S()), f)
    {
      ok := CommitTxn(f.commit);
      if !ok {
        return false;
      }
      ok := SaveCursor(f.save);
    }

    method ClearCursor(o: Outcome) returns (ok: bool)
      modifies this, store
      ensures Done(W(), S(), ok) == T.ClearCursor(old(W()), old(S()), o)
    {
      ok := StoreSave(Empty, o);
      if ok {
        cur := Empty;
      }
    }

    method Upsert(key: string, ad: Ad, now: int)
      modifies this
      ensures S() == UpsertRow(W(), old(S()), key, ad, now)
    {
      hide HubKey.Key, StampHeartbeat;
      var hk := HubKey.Key(schedd, key);
      var row := ad[SCHEDD_NAME := StrV(schedd)];
      if resetting {
        touched := touched + {hk};
      }
      if tx.None? {
        tx := Some(map[]);
      }
      var stored := Lookup(hub.rows, tx, hk);
      if status {
        row := StampHeartbeat(stored, row, catchup, now);
      }
      if catchup && stored == Some(row) {
        return;
      }
      tx := Some(tx.value[hk := Some(row)]);
      pending := pending + 1;
    }

    method Delete(key: string)
      modifies this
      ensures S() == DeleteRow(W(), old(S()), key)
    {
      var hk := HubKey.Key(schedd, key);
      if tx.None? {
        tx := Some(map[]);
      }
      if Lookup(hub.rows, tx, hk).Some? {
        tx := Some(tx.value[hk := None]);
        pending := pending + 1;
      }
    }

    /** sweep: delete, a batch at a time, the scanned keys the replay did not deliver. */
    method Sweep(f: Faults) returns (ok: bool)
      modifies hub
      ensures Done(W(), S(), ok) == T.Sweep(old(W()), old(S()), f)
    {
      if f.scan.None? {
        return false;
      }
      var stale := ListStale(f.scan.value);
      ok := SweepBatches(stale, f.sweep);
    }

    method ListStale(scan: seq<string>) returns (stale: seq<string>)
      ensures stale == Stale(scan, touched)
    {
      stale := [];
      for i := 0 to |scan|
        invariant stale == Stale(scan[..i], touched)
      {
        assert scan[..i + 1][..i] == scan[..i];
        if scan[i] !in touched {
          stale := stale + [scan[i]];
        }
      }
      assert scan[..|scan|] == scan;
    }

    method SweepBatches(stale: seq<string>, outcomes: seq<Outcome>) returns (ok: bool)
      modifies hub
      ensures (hub.rows, ok) == SweepFrom(old(hub.rows), stale, 0, outcomes)
    {
      hide Commit, Remove;
      var i := 0;
      while i < |stale|
        invariant SweepFrom(old(hub.rows), stale, 0, outcomes) == SweepFrom(hub.rows, stale, i, outcomes)
        decreases |stale| - i
      {
        var batch := stale[i..Min(i + MAX_BATCH, |stale|)];
        var o := if i / MAX_BATCH < |outcomes| then outcomes[i / MAX_BATCH] else Succeeded;
        RemoveIsCommit(hub.rows, batch);
        ok := StoreCommit(map k | k in batch :: None, o);
        if !ok {
          return false;
        }
        i := i + MAX_BATCH;
      }
      ok := true;
    }

    method Apply(c: Change, f: Faults) returns (ok: bool)
      modifies this, hub, store
      ensures Done(W(), S(), ok) == T.Apply(old(W()), old(S()), c, f)
    {
      hide UpsertRow, DeleteRow, T.Sweep, T.Flush, T.CommitTxn, T.SaveCursor, HubKey.Key;
      if failed {
        return false;
      }
      ok := ApplyChange(c, f);
      if !ok {
        RecordFailure();
      }
    }

    method ApplyChange(c: Change, f: Faults) returns (ok: bool)
      modifies this, hub, store
      ensures Done(W(), S(), ok) == ApplyInner(old(W()), old(S()), c, f)
    {
      hide UpsertRow, DeleteRow, T.Sweep, T.Flush, T.CommitTxn, T.SaveCursor, HubKey.Key;
      match c {
        case Upsert(key, None, _) =>
          if resetting {
            touched := touched + {HubKey.Key(schedd, key)};
          }
        case Upsert(key, Some(ad), _) =>
          Upsert(key, ad, f.now);
        case Delete(key, _) =>
          Delete(key);
        case Reset(_) =>
          ok := FlushBatch(f);
          if !ok {
            return false;
          }
          ok := ClearCursor(f.clear);
          if !ok {
            return false;
          }
          resetting, touched, catchup := true, {}, true;
        case Synced(_) =>
          ok := CommitTxn(f.commit);
          if !ok {
            return false;
          }
          if resetting {
            ok := Sweep(f);
            if !ok {
              return false;
            }
            resetting, touched := false, {};
          }
          catchup := false;
          if c.cursor != Empty {
            nextCur := c.cursor;
          }
          ok := SaveCursor(f.save);
          return;
        case Gap(_) =>
      }
      if c.cursor != Empty {
        nextCur := c.cursor;
      }
      if pending >= MAX_BATCH {
        ok := FlushBatch(f);
      } else {
        ok := true;
      }
    }

    method Flush(f: Faults) returns (ok: bool)
      modifies this, hub, store
      ensures Done(W(), S(), ok) == FlushCall(old(W()), old(S()), f)
    {
      if failed {
        return false;
      }
      ok := FlushBatch(f);
      if !ok {
        RecordFailure();
      }
    }
  }

  /** Destroying the keys of a batch in one transaction removes exactly those rows. */
  lemma {:induction false} RemoveIsCommit(rows: Rows, batch: seq<string>)
    ensures Commit(rows, map k | k in batch :: None) == Remove(rows, batch)
  {
  }
}
