/** Receipt times told forward: what stamp a heartbeat gets, and that it keeps it. */
module TableBeats {
  import opened Text
  import opened Store
  import HubKey
  import opened TableSpec
  import opened TableRun
  import opened TableTheorems

  // ---------------------------------------------------------------------------------------
  // When the sink takes what it receives for live.

  /** A session begins in catch-up, and so does a Reset; the Synced that succeeds ends it. */
  lemma {:induction false} CatchupExact(sys: Sys, a: Action)
    ensures var next := Next(sys, a);
            !next.s.failed ==>
              next.s.catchup == match a
                                case Begin(_) => true
                                case Crash => true
                                case Recv(c, _) => c.Reset? || (sys.s.catchup && !c.Synced?)
                                case _ => sys.s.catchup
  {
    hide Flush, UpsertRow, DeleteRow, AfterRow, ApplyReset, ApplySynced, HubKey.Key;
    var w, s := sys.w, sys.s;
    match a {
      case FlushNow(f) => FlushKeepsCatchup(w, s, f);
      case Recv(c, f) =>
        match c {
          case Upsert(key, None, cur) =>
            AfterKeepsCatchup(w, s, cur, f);
            AfterKeepsCatchup(w, s.(touched := s.touched + {HubKey.Key(s.schedd, key)}), cur, f);
          case Upsert(key, Some(ad), cur) =>
            RowKeepsCatchup(w, s, key, ad, f.now);
            AfterKeepsCatchup(w, UpsertRow(w, s, key, ad, f.now), cur, f);
          case Delete(key, cur) =>
            RowKeepsCatchup(w, s, key, map[], f.now);
            AfterKeepsCatchup(w, DeleteRow(w, s, key), cur, f);
          case Reset(cur) =>
            ResetStarts(w, s, f);
            var r := ApplyReset(w, s, f);
            AfterKeepsCatchup(r.w, r.s, cur, f);
          case Synced(cur) => SyncedEnds(w, s, cur, f);
          case Gap(cur) => AfterKeepsCatchup(w, s, cur, f);
        }
      case _ =>
    }
  }

  lemma {:induction false} FlushKeepsCatchup(w: World, s: Sink, f: Faults)
    ensures Flush(w, s, f).s.catchup == s.catchup
  {
    hide Commit;
  }

  lemma {:induction false} AfterKeepsCatchup(w: World, s: Sink, c: Cursor, f: Faults)
    ensures AfterRow(w, s, c, f).s.catchup == s.catchup
  {
    hide Flush;
    FlushKeepsCatchup(w, NoteCursor(s, c), f);
  }

  lemma {:induction false} ResetStarts(w: World, s: Sink, f: Faults)
    ensures ApplyReset(w, s, f).ok ==> ApplyReset(w, s, f).s.catchup
  {
    hide Flush;
  }

  lemma {:induction false} SyncedEnds(w: World, s: Sink, c: Cursor, f: Faults)
    ensures ApplySynced(w, s, c, f).ok ==> !ApplySynced(w, s, c, f).s.catchup
  {
    hide CommitTxn, Sweep;
  }

  lemma {:induction false} RowKeepsCatchup(w: World, s: Sink, key: string, ad: Ad, now: int)
    ensures UpsertRow(w, s, key, ad, now).catchup == s.catchup && DeleteRow(w, s, key).catchup == s.catchup
    ensures UpsertRow(w, s, key, ad, now).failed == s.failed && DeleteRow(w, s, key).failed == s.failed
  {
    hide HubKey.Key, RowOf;
  }

  // ---------------------------------------------------------------------------------------
  // The stamp.

  predicate BeatOf(row: Ad, seqNo: int, beat: int) { IntOf(row, SEQ) == Some(seqNo) && IntOf(row, BEAT) == Some(beat) }

  /** The stored row is this very heartbeat, and its receipt time is known. */
  function KnownReceipt(stored: Option<Ad>, ad: Ad): Option<int> {
    if stored.Some? && IntOf(ad, SEQ).Some? && IntOf(ad, BEAT).Some? &&
       BeatOf(stored.value, IntOf(ad, SEQ).value, IntOf(ad, BEAT).value) then IntOf(stored.value, RECEIVED)
    else None
  }

  /** A row with this stamp, or with none. */
  predicate HasStamp(row: Ad, stamp: Option<int>) {
    if stamp.None? then RECEIVED !in row else RECEIVED in row && row[RECEIVED] == IntV(stamp.value)
  }

  /** What the view holds under a key. */
  function Viewed(sys: Sys, hk: string): Option<Ad> { if hk in TheView(sys) then Some(TheView(sys)[hk]) else None }

  lemma {:induction false} UpsertStamps(w: World, s: Sink, key: string, ad: Ad, now: int)
    requires s.status
    ensures var hk := HubKey.Key(s.schedd, key);
            var v, v1 := View(w.rows, s.tx), View(w.rows, UpsertRow(w, s, key, ad, now).tx);
            var known := KnownReceipt(if hk in v then Some(v[hk]) else None, ad);
            && hk in v1 && IntOf(v1[hk], SEQ) == IntOf(ad, SEQ) && IntOf(v1[hk], BEAT) == IntOf(ad, BEAT)
            && HasStamp(v1[hk], if known.Some? then known else if s.catchup then None else Some(now))
  {
    hide View, UpsertRow, HubKey.Key;
    var row := UpsertView(w, s, key, ad, now);
    ViewLookup(w.rows, s.tx, HubKey.Key(s.schedd, key));
  }

  /** A heartbeat that is applied: the view then holds it under the schedd's key, with the receipt time it had if
      it is the one already held, with this call's time if it arrived live, and with none if it was first met in
      catch-up. A flush that succeeds puts it in the table as it is. */
  lemma {:induction false} HeartbeatStamped(rows: Rows, schedd: string, acts: seq<Action>, key: string, ad: Ad,
                                            cur: Cursor,
                                            f: Faults, g: Faults, logs: Logs)
    requires RowsOk(rows) && ValidRun(Start(rows, schedd, true), false, acts, logs)
    requires var sys := Run(Start(rows, schedd, true), acts);
             Allowed(sys, Recv(Upsert(key, Some(ad), cur), f), logs) &&
                 Apply(sys.w, sys.s, Upsert(key, Some(ad), cur), f).ok
    ensures var sys, hk := Run(Start(rows, schedd, true), acts), HubKey.Key(schedd, key);
            var known := KnownReceipt(Viewed(sys, hk), ad);
            var next := Next(sys, Recv(Upsert(key, Some(ad), cur), f));
            && hk in TheView(next)
            && IntOf(TheView(next)[hk], SEQ) == IntOf(ad, SEQ) && IntOf(TheView(next)[hk], BEAT) == IntOf(ad, BEAT)
            && HasStamp(TheView(next)[hk], if known.Some? then known else if sys.s.catchup then None else Some(f.now))
            && (FlushCall(next.w, next.s, g).ok ==>
                var table := Next(next, FlushNow(g)).w.rows;
                hk in table && table[hk] == TheView(next)[hk])
  {
    hide Run, ValidRun, View, UpsertRow, HubKey.Key, Flush, HasStamp, KnownReceipt, Within;
    RunKeepsId(Start(rows, schedd, true), acts);
    var sys := Run(Start(rows, schedd, true), acts);
    var s1 := UpsertRow(sys.w, sys.s, key, ad, f.now);
    UpsertStamps(sys.w, sys.s, key, ad, f.now);
    RowKeepsId(sys.w, sys.s, key, ad, f.now);
    FlushView(sys.w, NoteCursor(s1, cur), f);
    ViewNone(Flush(sys.w, NoteCursor(s1, cur), f).w.rows);
    var next := Next(sys, Recv(Upsert(key, Some(ad), cur), f));
    FlushView(next.w, next.s, g);
  }

  lemma {:induction false} FlushView(w: World, s: Sink, f: Faults)
    ensures var r := Flush(w, s, f); r.ok ==> r.w.rows == View(w.rows, s.tx) && r.s.tx.None?
  {
    hide View, CommitTxn, SaveCursor;
    CommitView(w, s, f.commit);
    var r := CommitTxn(w, s, f.commit);
    SaveSame(r.w, r.s, f.save);
  }

  // ---------------------------------------------------------------------------------------
  // Redeliveries.

  /** What the table and the view hold under the key, if anything, is this heartbeat with this receipt time. */
  predicate Holding(sys: Sys, hk: string, seqNo: int, beat: int, at: int) {
    && (hk in sys.w.rows ==> StampedBeat(sys.w.rows[hk], seqNo, beat, at))
    && (hk in TheView(sys) ==> StampedBeat(TheView(sys)[hk], seqNo, beat, at))
  }

  predicate StampedBeat(row: Ad, seqNo: int, beat: int, at: int) {
    BeatOf(row, seqNo, beat) && IntOf(row, RECEIVED) == Some(at)
  }

  /** If the action brings a row under the key, it is that heartbeat again. */
  predicate Again(a: Action, key: string, seqNo: int, beat: int) {
    a.Recv? && a.c.Upsert? && a.c.ad.Some? && a.c.key == key ==> BeatOf(a.c.ad.value, seqNo, beat)
  }

  lemma {:induction false} AgainKeeps(sys: Sys, a: Action, key: string, seqNo: int, beat: int, at: int, logs: Logs)
    requires Inv(sys, logs) && Allowed(sys, a, logs) && sys.s.status && Again(a, key, seqNo, beat)
    requires var hk := HubKey.Key(sys.s.schedd, key); hk in TheView(sys) && Holding(sys, hk, seqNo, beat, at)
    ensures Holding(Next(sys, a), HubKey.Key(sys.s.schedd, key), seqNo, beat, at)
  {
    hide Inv, Next, View, Owned, HubKey.Key, Pool, Upserted, StampedBeat;
    var hk, next := HubKey.Key(sys.s.schedd, key), Next(sys, a);
    KeyOwned(sys.s.schedd, key);
    NextWithin(sys, a, logs);
    if hk in next.w.rows { PoolStamped(sys, a, key, next.w.rows[hk], seqNo, beat, at); }
    if hk in TheView(next) { PoolStamped(sys, a, key, TheView(next)[hk], seqNo, beat, at); }
  }

  lemma {:induction false} PoolStamped(sys: Sys, a: Action, key: string, row: Ad, seqNo: int, beat: int, at: int)
    requires sys.s.status && Again(a, key, seqNo, beat)
    requires var hk := HubKey.Key(sys.s.schedd, key);
             hk in TheView(sys) && Holding(sys, hk, seqNo, beat, at) && (hk, row) in Pool(sys) + Upserted(sys, a)
    ensures StampedBeat(row, seqNo, beat, at)
  {
    hide View, HubKey.Key;
    var hk := HubKey.Key(sys.s.schedd, key);
    if (hk, row) !in Pool(sys) {
      HubKey.Injective(sys.s.schedd, a.c.key, sys.s.schedd, key);
      ViewLookup(sys.w.rows, sys.s.tx, hk);
      assert row == RowOf(sys.s, Some(TheView(sys)[hk]), a.c.ad.value, a.f.now);
    }
  }

  /** Through the whole run the sink holds some row under the key. */
  ghost predicate Stays(sys: Sys, acts: seq<Action>, hk: string)
    decreases |acts|
  {
    hk in TheView(sys) && (acts == [] || Stays(Next(sys, acts[0]), acts[1..], hk))
  }

  lemma {:induction false} RunHolds(sys: Sys, exposed: bool, acts: seq<Action>, key: string, seqNo: int, beat: int,
                                    at: int, logs: Logs)
    requires Inv(sys, logs) && (!exposed ==> StoredOk(sys, logs)) && ValidRun(sys, exposed, acts, logs) && sys.s.status
    requires forall i :: 0 <= i < |acts| ==> Again(acts[i], key, seqNo, beat)
    requires var hk := HubKey.Key(sys.s.schedd, key); Stays(sys, acts, hk) && Holding(sys, hk, seqNo, beat, at)
    ensures Holding(Run(sys, acts), HubKey.Key(sys.s.schedd, key), seqNo, beat, at)
    decreases |acts|
  {
    hide Inv, Allowed, Next, Exposure, StoredOk, Holding, HubKey.Key, Again, View;
    if acts != [] {
      AgainKeeps(sys, acts[0], key, seqNo, beat, at, logs);
      ExposureStep(sys, acts[0], exposed, logs);
      NextKeepsId(sys, acts[0]);
      RunHolds(Next(sys, acts[0]), Exposure(sys, acts[0], exposed), acts[1..], key, seqNo, beat, at, logs);
    }
  }

  /** A heartbeat the hub holds keeps its receipt time through any run that redelivers it -- replays, resumes,
      failures and crashes included -- for as long as the hub holds the row at all. */
  lemma {:induction false} RedeliveryKeepsTime(rows: Rows, schedd: string, acts: seq<Action>, more: seq<Action>,
                                               key: string, seqNo: int, beat: int, at: int, logs: Logs)
    requires RowsOk(rows) && ValidRun(Start(rows, schedd, true), false, acts + more, logs)
    requires forall i :: 0 <= i < |more| ==> Again(more[i], key, seqNo, beat)
    requires var sys, hk := Run(Start(rows, schedd, true), acts), HubKey.Key(schedd, key);
             Stays(sys, more, hk) && Holding(sys, hk, seqNo, beat, at)
    ensures var end, hk := Run(Start(rows, schedd, true), acts + more), HubKey.Key(schedd, key);
            hk in TheView(end) && Holding(end, hk, seqNo, beat, at)
  {
    hide Run, ValidRun, Stays, Holding, HubKey.Key, Again, View, Inv, StoredOk, Exposure;
    var start := Start(rows, schedd, true);
    StartInv(rows, schedd, true, logs);
    var exposed := SplitRun(start, false, acts, more, logs);
    RunKeepsId(start, acts);
    RunHolds(Run(start, acts), exposed, more, key, seqNo, beat, at, logs);
    StaysEnds(Run(start, acts), more, HubKey.Key(schedd, key));
  }

  lemma {:induction false} StaysEnds(sys: Sys, acts: seq<Action>, hk: string)
    requires Stays(sys, acts, hk)
    ensures hk in TheView(Run(sys, acts))
    decreases |acts|
  {
    hide Next, View;
    if acts != [] { StaysEnds(Next(sys, acts[0]), acts[1..], hk); }
  }

  /** The state in the middle of a run. */
  lemma {:induction false} SplitRun(sys: Sys, exposed: bool, a: seq<Action>, b: seq<Action>, logs: Logs)
    returns (mid: bool)
    requires Inv(sys, logs) && (!exposed ==> StoredOk(sys, logs)) && ValidRun(sys, exposed, a + b, logs)
    ensures Run(sys, a + b) == Run(Run(sys, a), b) && Inv(Run(sys, a), logs)
    ensures (!mid ==> StoredOk(Run(sys, a), logs)) && ValidRun(Run(sys, a), mid, b, logs)
    decreases |a|
  {
    hide Inv, Allowed, Next, Exposure, StoredOk;
    if a == [] {
      assert a + b == b;
      mid := exposed;
    } else {
      assert (a + b)[0] == a[0] && (a + b)[1..] == a[1..] + b;
      ExposureStep(sys, a[0], exposed, logs);
      mid := SplitRun(Next(sys, a[0]), Exposure(sys, a[0], exposed), a[1..], b, logs);
    }
  }
}
