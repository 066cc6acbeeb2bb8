/** The table sink (federate/tablesink.go) as a step machine over values.

    Every call that reaches the store may fail, and a failed commit may or may not have taken
    effect; the outcomes are inputs. The clock is an input too. */
module TableSpec {
  import opened Text
  import opened Store
  import HubKey

  datatype Val = IntV(i: int) | StrV(s: string) | ExprV(text: string)

  /** An ad: attribute names are in their folded spelling. */
  type Ad = map<string, Val>

  const SCHEDD_NAME := "scheddname"
  const RECEIVED := "hubreceivedtime"
  const SEQ := "heartbeatseq"
  const BEAT := "heartbeattime"

  const MAX_BATCH: nat := 4096

  /** A resume cursor: empty, or a position in the change log of one watch epoch. */
  datatype Cursor = Empty | At(epoch: nat, pos: nat)

  datatype Change =
    | Upsert(key: string, ad: Option<Ad>, cursor: Cursor)
    | Delete(key: string, cursor: Cursor)
    | Reset(cursor: Cursor)
    | Synced(cursor: Cursor)
    | Gap(cursor: Cursor)

  /** A transaction: the rows it writes (Some) and destroys (None). */
  type Txn = map<string, Option<Ad>>

  type Rows = map<string, Ad>

  /** The store outcomes and readings one call meets. `scan` is the key stream of KeysWhere. */
  datatype Faults = Faults(commit: Outcome, save: Outcome, clear: Outcome, scan: Option<seq<string>>,
                           sweep: seq<Outcome>, now: int)

  datatype World = World(rows: Rows, durable: Cursor)

  datatype Sink = Sink(schedd: string, status: bool, tx: Option<Txn>, pending: nat, nextCur: Cursor, failed: bool,
                       catchup: bool, resetting: bool, touched: set<string>, cur: Cursor)

  /** A call's effect and whether it returned without an error. */
  datatype Done = Done(w: World, s: Sink, ok: bool)

  // ---------------------------------------------------------------------------------------
  // Transactions.

  function Lookup(rows: Rows, tx: Option<Txn>, hk: string): Option<Ad> {
    if tx.Some? && hk in tx.value then tx.value[hk]
    else if hk in rows then Some(rows[hk]) else None
  }

  function Commit(rows: Rows, tx: Txn): Rows {
    map hk | hk in rows.Keys + tx.Keys && Lookup(rows, Some(tx), hk).Some? :: Lookup(rows, Some(tx), hk).value
  }

  function Open(tx: Option<Txn>): Txn { if tx.Some? then tx.value else map[] }

  /** The table as the sink sees it: committed rows under its open transaction. */
  function View(rows: Rows, tx: Option<Txn>): Rows { Commit(rows, Open(tx)) }

  // ---------------------------------------------------------------------------------------
  // Store steps.

  function Discard(s: Sink): Sink { s.(tx := None, pending := 0, nextCur := Empty) }

  function Fail(s: Sink): Sink { Discard(s).(failed := true) }

  function CommitTxn(w: World, s: Sink, o: Outcome): Done {
    if s.tx.None? then Done(w, s, true)
    else
      var s1 := s.(tx := None, pending := 0);
      var w1 := w.(rows := Commit(w.rows, s.tx.value));
      match o
      case Succeeded => Done(w1, s1, true)
      case FailedClean => Done(w, s1, false)
      case FailedDirty => Done(w1, s1, false)
  }

  function SaveCursor(w: World, s: Sink, o: Outcome): Done {
    if s.nextCur == Empty then Done(w, s, true)
    else
      var s1 := s.(nextCur := Empty);
      match o
      case Succeeded => Done(w.(durable := s.nextCur), s1.(cur := s.nextCur), true)
      case FailedClean => Done(w, s1, false)
      case FailedDirty => Done(w.(durable := s.nextCur), s1, false)
  }

  /** flush: the batch first, then the cursor that covers it. */
  function Flush(w: World, s: Sink, f: Faults): Done {
    var r := CommitTxn(w, s, f.commit);
    if !r.ok then r else SaveCursor(r.w, r.s, f.save)
  }

  function ClearCursor(w: World, s: Sink, o: Outcome): Done {
    match o
    case Succeeded => Done(w.(durable := Empty), s.(cur := Empty), true)
    case FailedClean => Done(w, s, false)
    case FailedDirty => Done(w.(durable := Empty), s, false)
  }

  // ---------------------------------------------------------------------------------------
  // Rows.

  function IntOf(ad: Ad, name: string): Option<int> {
    if name in ad && ad[name].IntV? then Some(ad[name].i) else None
  }

  predicate SameBeat(a: Ad, b: Ad) {
    && IntOf(a, SEQ).Some? && IntOf(a, BEAT).Some?
    && IntOf(a, SEQ) == IntOf(b, SEQ) && IntOf(a, BEAT) == IntOf(b, BEAT)
  }

  /** stampHeartbeat: a redelivered heartbeat keeps its receipt time, a live one gets this one, one
      first seen in catch-up gets none. */
  function StampHeartbeat(stored: Option<Ad>, ad: Ad, catchup: bool, now: int): Ad {
    if stored.Some? && SameBeat(ad, stored.value) && IntOf(stored.value, RECEIVED).Some? then
      ad[RECEIVED := IntV(IntOf(stored.value, RECEIVED).value)]
    else if catchup then ad - {RECEIVED}
    else ad[RECEIVED := IntV(now)]
  }

  /** The row an upsert stores. */
  function RowOf(s: Sink, stored: Option<Ad>, ad: Ad, now: int): Ad {
    var named := ad[SCHEDD_NAME := StrV(s.schedd)];
    if s.status then StampHeartbeat(stored, named, s.catchup, now) else named
  }

  function UpsertRow(w: World, s: Sink, key: string, ad: Ad, now: int): Sink {
    var hk := HubKey.Key(s.schedd, key);
    var s1 := s.(touched := if s.resetting then s.touched + {hk} else s.touched, tx := Some(Open(s.tx)));
    var stored := Lookup(w.rows, s1.tx, hk);
    var row := RowOf(s, stored, ad, now);
    if s.catchup && stored == Some(row) then s1
    else s1.(tx := Some(s1.tx.value[hk := Some(row)]), pending := s.pending + 1)
  }

  function DeleteRow(w: World, s: Sink, key: string): Sink {
    var hk := HubKey.Key(s.schedd, key);
    var s1 := s.(tx := Some(Open(s.tx)));
    if Lookup(w.rows, s1.tx, hk).Some? then
      s1.(tx := Some(s1.tx.value[hk := None]), pending := s.pending + 1)
    else s1
  }

  // ---------------------------------------------------------------------------------------
  // The sweep.

  /** scheddConstraint: ClassAd == on the row's ScheddName, which folds case. */
  predicate Selected(row: Ad, schedd: string) {
    SCHEDD_NAME in row && row[SCHEDD_NAME].StrV? && EqualFold(row[SCHEDD_NAME].s, schedd)
  }

  /** The keys of the scan the replay did not deliver, in scan order. */
  function Stale(scan: seq<string>, touched: set<string>): seq<string> {
    if scan == [] then []
    else Stale(scan[..|scan| - 1], touched) + (if scan[|scan| - 1] in touched then [] else [scan[|scan| - 1]])
  }

  function Remove(rows: Rows, keys: seq<string>): Rows { rows - (set k | k in keys) }

  function Min(a: nat, b: nat): nat { if a < b then a else b }

  /** Deleting the stale keys in batches from index i; a failed batch stops the sweep. */
  function SweepFrom(rows: Rows, stale: seq<string>, i: nat, outcomes: seq<Outcome>): (Rows, bool)
    decreases |stale| - i
  {
    if i >= |stale| then (rows, true)
    else
      var batch := stale[i..Min(i + MAX_BATCH, |stale|)];
      var o := if i / MAX_BATCH < |outcomes| then outcomes[i / MAX_BATCH] else Succeeded;
      match o
      case Succeeded => SweepFrom(Remove(rows, batch), stale, i + MAX_BATCH, outcomes)
      case FailedClean => (rows, false)
      case FailedDirty => (Remove(rows, batch), false)
  }

  function Sweep(w: World, s: Sink, f: Faults): Done {
    if f.scan.None? then Done(w, s, false)
    else
      var (rows, ok) := SweepFrom(w.rows, Stale(f.scan.value, s.touched), 0, f.sweep);
      Done(w.(rows := rows), s, ok)
  }

  // ---------------------------------------------------------------------------------------
  // Apply.

  function NoteCursor(s: Sink, c: Cursor): Sink { if c == Empty then s else s.(nextCur := c) }

  /** The tail of apply after a row change: remember the cursor, flush a full batch. */
  function AfterRow(w: World, s: Sink, c: Cursor, f: Faults): Done {
    var s1 := NoteCursor(s, c);
    if s1.pending >= MAX_BATCH then Flush(w, s1, f) else Done(w, s1, true)
  }

  function ApplyReset(w: World, s: Sink, f: Faults): Done {
    var r := Flush(w, s, f);
    if !r.ok then r
    else
      var r1 := ClearCursor(r.w, r.s, f.clear);
      if !r1.ok then r1 else Done(r1.w, r1.s.(resetting := true, touched := {}, catchup := true), true)
  }

  function ApplySynced(w: World, s: Sink, c: Cursor, f: Faults): Done {
    var r := CommitTxn(w, s, f.commit);
    if !r.ok then r
    else
      var r1 := if r.s.resetting then Sweep(r.w, r.s, f) else r;
      if !r1.ok then r1
      else
        var s1 := if r.s.resetting then r1.s.(resetting := false, touched := {}) else r1.s;
        SaveCursor(r1.w, NoteCursor(s1.(catchup := false), c), f.save)
  }

  function ApplyInner(w: World, s: Sink, c: Change, f: Faults): Done {
    match c
    case Upsert(key, None, cur) =>
      var s1 := if s.resetting then s.(touched := s.touched + {HubKey.Key(s.schedd, key)}) else s;
      AfterRow(w, s1, cur, f)
    case Upsert(key, Some(ad), cur) => AfterRow(w, UpsertRow(w, s, key, ad, f.now), cur, f)
    case Delete(key, cur) => AfterRow(w, DeleteRow(w, s, key), cur, f)
    case Reset(cur) =>
      var r := ApplyReset(w, s, f);
      if !r.ok then r else AfterRow(r.w, r.s, cur, f)
    case Synced(cur) => ApplySynced(w, s, cur, f)
    case Gap(cur) => AfterRow(w, s, cur, f)
  }

  /** Apply: nothing after a failure, and a failure drops what it covers. */
  function Apply(w: World, s: Sink, c: Change, f: Faults): Done {
    if s.failed then Done(w, s, false)
    else
      var r := ApplyInner(w, s, c, f);
      if r.ok then r else r.(s := Fail(r.s))
  }

  function FlushCall(w: World, s: Sink, f: Faults): Done {
    if s.failed then Done(w, s, false)
    else
      var r := Flush(w, s, f);
      if r.ok then r else r.(s := Fail(r.s))
  }

  function BeginSession(s: Sink): Sink { Discard(s).(failed := false, catchup := true) }

  function EndSession(s: Sink): Sink { s.(resetting := false, touched := {}) }

  /** newTableSink over a stored cursor: what a restart starts from. */
  function NewSink(schedd: string, status: bool, stored: Cursor): Sink {
    Sink(schedd, status, None, 0, Empty, false, true, false, {}, stored)
  }
}
