/** What the table sink promises over every run. */
module TableTheorems {
  import opened Text
  import opened Store
  import HubKey
  import opened TableSpec
  import opened TableRun

  // ---------------------------------------------------------------------------------------
  // Runs.

  /** The stored cursor is the sink's own, or none. */
  predicate Agreed(sys: Sys) { sys.w.durable == sys.s.cur || sys.w.durable == Empty }

  /** Whether an action leaves the table exposed to a crash: a save that failed after taking effect has put the
      stored cursor ahead of the sink's, and since then rows re-delivered from the older one were committed. */
  function Exposure(sys: Sys, a: Action, exposed: bool): bool {
    var next := Next(sys, a);
    if Agreed(next) || next.w.durable != sys.w.durable then false
    else exposed || ((a.Recv? || a.FlushNow?) && next.w.rows != sys.w.rows)
  }

  /** A run in which every store call may fail, with or without effect, and no crash finds the table exposed. */
  ghost predicate ValidRun(sys: Sys, exposed: bool, acts: seq<Action>, logs: Logs)
    decreases |acts|
  {
    acts == [] ||
    (Allowed(sys, acts[0], logs) && (acts[0].Crash? ==> !exposed) &&
     ValidRun(Next(sys, acts[0]), Exposure(sys, acts[0], exposed), acts[1..], logs))
  }

  function Run(sys: Sys, acts: seq<Action>): Sys
    decreases |acts|
  {
    if acts == [] then sys else Run(Next(sys, acts[0]), acts[1..])
  }

  /** A hub that has never followed this schedd: any well-named rows, no cursor. */
  function Start(rows: Rows, schedd: string, status: bool): Sys {
    Sys(World(rows, Empty), NewSink(schedd, status, Empty), Idle, map[], {})
  }

  lemma {:induction false} StartInv(rows: Rows, schedd: string, status: bool, logs: Logs)
    requires RowsOk(rows)
    ensures Inv(Start(rows, schedd, status), logs) && StoredOk(Start(rows, schedd, status), logs)
  {
    ViewNone(rows);
  }

  lemma {:induction false} HighGrows(sys: Sys, a: Action)
    ensures forall e :: High(sys.high, e) <= High(Next(sys, a).high, e)
  {
    hide Apply, FlushCall, BeginSession, EndSession;
  }

  /** An unexposed table heals from its stored cursor. */
  lemma {:induction false} ExposureStep(sys: Sys, a: Action, exposed: bool, logs: Logs)
    requires Inv(sys, logs) && Allowed(sys, a, logs) && (!exposed ==> StoredOk(sys, logs)) && (a.Crash? ==> !exposed)
    ensures Inv(Next(sys, a), logs) && (!Exposure(sys, a, exposed) ==> StoredOk(Next(sys, a), logs))
  {
    hide Allowed, Next, Ahead, High, Heals;
    StepInv(sys, a, logs);
    NextKeepsId(sys, a);
    HighGrows(sys, a);
    var next := Next(sys, a);
    if Agreed(next) {
      AgreedHeals(next, logs);
    } else if next.w.durable == sys.w.durable && !Exposure(sys, a, exposed) {
      HealsHigher(IdOf(sys.s), sys.high, next.high, sys.w.rows, sys.w.durable, logs);
      if a.Others? {
        OthersHeal(sys, a.rows, next.high, logs);
      } else {
        SessionRows(sys, a);
      }
    }
  }

  lemma {:induction false} AgreedHeals(sys: Sys, logs: Logs)
    requires Inv(sys, logs) && Agreed(sys)
    ensures StoredOk(sys, logs)
  {
    hide Ahead, High;
  }

  lemma {:induction false} SessionRows(sys: Sys, a: Action)
    requires a.Begin? || a.End? || a.Crash? || (a.Recv? || a.FlushNow? ==> Next(sys, a).w.rows == sys.w.rows)
    ensures !a.Others? ==> Next(sys, a).w.rows == sys.w.rows
  {
    hide Apply, FlushCall;
  }

  lemma {:induction false} OthersHeal(sys: Sys, rows: Rows, high: map<nat, nat>, logs: Logs)
    requires Allowed(sys, Others(rows), logs) && Heals(IdOf(sys.s), high, sys.w.rows, sys.w.durable, logs)
    ensures Next(sys, Others(rows)).w.rows == rows && Heals(IdOf(sys.s), high, rows, sys.w.durable, logs)
  {
    hide HubKey.Key, State, High, Owned, RowsOk;
    var id := IdOf(sys.s);
    forall k ensures Have(id, rows, k) == Have(id, sys.w.rows, k) { KeyOwned(sys.s.schedd, k); }
    if sys.w.durable.At? {
      SameAhead(id, sys.w.rows, rows, logs(sys.w.durable.epoch), sys.w.durable.pos, High(high, sys.w.durable.epoch));
    }
  }

  /** The invariant holds in every reachable state: in particular the sink's cursor always heals the table. */
  lemma {:induction false} RunInv(sys: Sys, exposed: bool, acts: seq<Action>, logs: Logs)
    requires Inv(sys, logs) && (!exposed ==> StoredOk(sys, logs)) && ValidRun(sys, exposed, acts, logs)
    ensures Inv(Run(sys, acts), logs)
    decreases |acts|
  {
    hide Inv, Allowed, Next, Exposure, StoredOk;
    if acts != [] {
      ExposureStep(sys, acts[0], exposed, logs);
      RunInv(Next(sys, acts[0]), Exposure(sys, acts[0], exposed), acts[1..], logs);
    }
  }

  // ---------------------------------------------------------------------------------------
  // Exactness.

  lemma {:induction false} LiveExact(sys: Sys, logs: Logs)
    requires Inv(sys, logs) && !sys.s.failed && sys.feed.Live? && sys.feed.pos >= High(sys.high, sys.feed.epoch)
    ensures sys.feed.pos <= |logs(sys.feed.epoch)|
    ensures Mirrors(IdOf(sys.s), TheView(sys), State(logs(sys.feed.epoch), sys.feed.pos))
  {
    hide Ahead, View, State, Mirrors;
    var e := sys.feed.epoch;
    assert High(sys.high, e) <= |logs(e)|;
    MirrorsAhead(IdOf(sys.s), TheView(sys), logs(e), sys.feed.pos);
  }

  /** Every session that reaches Synced leaves this schedd's rows equal to the source's rows at that
      point -- no phantoms, nothing missing -- whatever failed, crashed or replayed before it, unless a crash
      found the table exposed. */
  lemma {:induction false} SyncedExact(rows: Rows, schedd: string, status: bool, acts: seq<Action>, c: Change,
                                       f: Faults,
                                       logs: Logs) returns (e: nat, n: nat)
    requires RowsOk(rows) && ValidRun(Start(rows, schedd, status), false, acts, logs) && c.Synced?
    requires var sys := Run(Start(rows, schedd, status), acts);
             Allowed(sys, Recv(c, f), logs) && Apply(sys.w, sys.s, c, f).ok
    ensures var next := Next(Run(Start(rows, schedd, status), acts), Recv(c, f));
            && next.feed == Live(e, n) && n <= |logs(e)| && (c.cursor.At? ==> c.cursor == At(e, n))
            && Mirrors(IdOf(next.s), next.w.rows, State(logs(e), n))
  {
    hide Run, ValidRun, Mirrors, Ahead, State, View;
    StartInv(rows, schedd, status, logs);
    RunInv(Start(rows, schedd, status), false, acts, logs);
    var sys := Run(Start(rows, schedd, status), acts);
    assert !sys.s.failed;
    if sys.feed.Live? {
      e, n := sys.feed.epoch, sys.feed.pos;
      LiveExact(sys, logs);
      SyncedLiveInv(sys, c, f, logs);
    } else {
      e, n := c.cursor.epoch, c.cursor.pos;
      SyncedReplayInv(sys, c, f, logs);
    }
    SyncedKeepsId(sys.w, sys.s, c.cursor, f);
  }

  /** The flush from any state of such a run. */
  lemma {:induction false} LiveFlush(sys: Sys, f: Faults, logs: Logs)
    requires Inv(sys, logs) && Allowed(sys, FlushNow(f), logs) && sys.feed.Live? && FlushCall(sys.w, sys.s, f).ok
    requires sys.feed.pos >= High(sys.high, sys.feed.epoch)
    ensures sys.feed.pos <= |logs(sys.feed.epoch)|
    ensures Mirrors(IdOf(sys.s), Next(sys, FlushNow(f)).w.rows, State(logs(sys.feed.epoch), sys.feed.pos))
  {
    hide Mirrors, Ahead, State, View;
    LiveExact(sys, logs);
    FlushInv(sys, f, logs);
  }

  /** After any such run, a successful flush in the live tail leaves the rows equal to the source's at the last
      delivered change. */
  lemma {:induction false} FlushExact(rows: Rows, schedd: string, status: bool, acts: seq<Action>, f: Faults,
                                      logs: Logs)
    requires RowsOk(rows) && ValidRun(Start(rows, schedd, status), false, acts, logs)
    requires var sys := Run(Start(rows, schedd, status), acts);
             && Allowed(sys, FlushNow(f), logs) && sys.feed.Live? && FlushCall(sys.w, sys.s, f).ok
             && sys.feed.pos >= High(sys.high, sys.feed.epoch)
    ensures var sys := Run(Start(rows, schedd, status), acts);
            && sys.feed.pos <= |logs(sys.feed.epoch)|
            && Mirrors(IdOf(sys.s), Next(sys, FlushNow(f)).w.rows, State(logs(sys.feed.epoch), sys.feed.pos))
  {
    hide Inv, StoredOk, Run, ValidRun, Mirrors, State, Next, FlushCall;
    StartInv(rows, schedd, status, logs);
    RunInv(Start(rows, schedd, status), false, acts, logs);
    LiveFlush(Run(Start(rows, schedd, status), acts), f, logs);
  }

  lemma {:induction false} SyncedKeepsId(w: World, s: Sink, c: Cursor, f: Faults)
    ensures IdOf(ApplySynced(w, s, c, f).s) == IdOf(s)
  {
    hide CommitTxn, SaveCursor, SweepFrom, Stale;
    CommitKeepsId(w, s, f.commit);
    var r := CommitTxn(w, s, f.commit);
    var r1 := if r.s.resetting then Sweep(r.w, r.s, f) else r;
    var s1 := if r.s.resetting then r1.s.(resetting := false, touched := {}) else r1.s;
    SaveKeepsId(r1.w, NoteCursor(s1.(catchup := false), c), f.save);
  }

  lemma {:induction false} CommitKeepsId(w: World, s: Sink, o: Outcome)
    ensures IdOf(CommitTxn(w, s, o).s) == IdOf(s)
  {
    hide Commit;
  }

  lemma {:induction false} SaveKeepsId(w: World, s: Sink, o: Outcome)
    ensures IdOf(SaveCursor(w, s, o).s) == IdOf(s)
  {
  }

  // ---------------------------------------------------------------------------------------
  // Other schedds.

  /** rows1 differs from rows only under this schedd's keys. */
  ghost predicate OnlyMine(schedd: string, rows: Rows, rows1: Rows) {
    forall hk :: !Owned(schedd, hk) ==> (hk in rows1 <==> hk in rows) && (hk in rows ==> rows1[hk] == rows[hk])
  }

  lemma {:induction false} CommitMine(w: World, s: Sink, o: Outcome)
    requires TxnOwned(s)
    ensures OnlyMine(s.schedd, w.rows, CommitTxn(w, s, o).w.rows)
  {
    hide Owned;
  }

  lemma {:induction false} FlushMine(w: World, s: Sink, f: Faults)
    requires TxnOwned(s)
    ensures OnlyMine(s.schedd, w.rows, Flush(w, s, f).w.rows)
  {
    hide OnlyMine, Commit;
    CommitMine(w, s, f.commit);
  }

  lemma {:induction false} SweepMine(w: World, s: Sink, f: Faults)
    requires RowsOk(w.rows) && (f.scan.Some? ==> ScanOk(w.rows, s.schedd, f.scan.value))
    ensures OnlyMine(s.schedd, w.rows, Sweep(w, s, f).w.rows)
  {
    hide Owned, SweepFrom, Stale, Selected;
    if f.scan.Some? {
      var scan := f.scan.value;
      StaleIs(scan, s.touched);
      SweepRemoves(w.rows, Stale(scan, s.touched), 0, f.sweep);
      forall hk | hk in scan ensures Owned(s.schedd, hk) { SelectedOwned(w.rows, s.schedd, hk); }
    } else {
      SameRows(s.schedd, w.rows);
    }
  }

  lemma {:induction false} SameRows(schedd: string, rows: Rows)
    ensures OnlyMine(schedd, rows, rows)
  {
  }

  lemma {:induction false} MineTrans(schedd: string, a: Rows, b: Rows, c: Rows)
    requires OnlyMine(schedd, a, b) && OnlyMine(schedd, b, c)
    ensures OnlyMine(schedd, a, c)
  {
    hide Owned;
  }

  /** No call of this sink ever changes another schedd's row. */
  lemma {:induction false} OthersUntouched(sys: Sys, a: Action, logs: Logs)
    requires Inv(sys, logs) && Allowed(sys, a, logs) && !a.Others?
    ensures OnlyMine(sys.s.schedd, sys.w.rows, Next(sys, a).w.rows)
  {
    hide OnlyMine, Flush, UpsertRow, DeleteRow, CommitTxn, SaveCursor, Sweep, HubKey.Key, Inv;
    SameRows(sys.s.schedd, sys.w.rows);
    InvParts(sys, logs);
    match a {
      case FlushNow(f) => FlushMine(sys.w, sys.s, f);
      case Recv(c, f) =>
        if !sys.s.failed {
          match c {
            case Upsert(_, _, _) => RowMine(sys, c, f, logs);
            case Delete(_, _) => RowMine(sys, c, f, logs);
            case Reset(_) => ResetMine(sys, f);
            case Synced(_) => SyncedMine(sys, c, f, logs);
            case Gap(_) =>
          }
        }
      case _ =>
    }
  }

  lemma {:induction false} InvParts(sys: Sys, logs: Logs)
    requires Inv(sys, logs)
    ensures TxnOwned(sys.s) && RowsOk(sys.w.rows)
  {
  }

  lemma {:induction false} RowMine(sys: Sys, c: Change, f: Faults, logs: Logs)
    requires Inv(sys, logs) && !sys.s.failed && Delivers(sys, c, f, logs) && (c.Upsert? || c.Delete?)
    ensures OnlyMine(sys.s.schedd, sys.w.rows, Apply(sys.w, sys.s, c, f).w.rows)
  {
    hide OnlyMine, Flush, UpsertRow, DeleteRow, Inv, HubKey.Key;
    SameRows(sys.s.schedd, sys.w.rows);
    var s1 := if c.Upsert? then UpsertRow(sys.w, sys.s, c.key, c.ad.value, f.now) else DeleteRow(sys.w, sys.s, c.key);
    if c.Upsert? { UpsertStep(sys, c, f, logs); } else { DeleteStep(sys, c, f, logs); }
    FlushMine(sys.w, NoteCursor(s1, c.cursor), f);
  }

  lemma {:induction false} ResetMine(sys: Sys, f: Faults)
    requires TxnOwned(sys.s) && !sys.s.failed
    ensures OnlyMine(sys.s.schedd, sys.w.rows, Apply(sys.w, sys.s, Reset(Empty), f).w.rows)
  {
    hide OnlyMine, Commit;
    SameRows(sys.s.schedd, sys.w.rows);
    FlushMine(sys.w, sys.s, f);
    var r := ApplyReset(sys.w, sys.s, f);
    if r.ok {
      NoTxn(r.s);
      FlushMine(r.w, NoteCursor(r.s, Empty), f);
      MineTrans(sys.s.schedd, sys.w.rows, r.w.rows, AfterRow(r.w, r.s, Empty, f).w.rows);
    }
  }

  lemma {:induction false} SyncedMine(sys: Sys, c: Change, f: Faults, logs: Logs)
    requires Inv(sys, logs) && !sys.s.failed && Delivers(sys, c, f, logs) && c.Synced?
    ensures OnlyMine(sys.s.schedd, sys.w.rows, Apply(sys.w, sys.s, c, f).w.rows)
  {
    hide OnlyMine, Commit, SweepFrom, Stale, RowsOk, Ahead;
    LiveBatch(sys, logs);
    CommitKeeps(sys.w, sys.s, f.commit, sys.high, logs);
    CommitMine(sys.w, sys.s, f.commit);
    var r := CommitTxn(sys.w, sys.s, f.commit);
    if r.ok && r.s.resetting {
      SweepMine(r.w, r.s, f);
      MineTrans(sys.s.schedd, sys.w.rows, r.w.rows, Sweep(r.w, r.s, f).w.rows);
    }
  }

  // ---------------------------------------------------------------------------------------
  // Healing: the session that resumes from the committed cursor and meets no failure.

  const GOOD := Faults(Succeeded, Succeeded, Succeeded, None, [], 0)

  function ChangeAt(log: seq<Op>, e: nat, i: nat): Change
    requires i < |log|
  {
    match log[i]
    case Put(k, ad) => Upsert(k, Some(ad), At(e, i + 1))
    case Del(k) => Delete(k, At(e, i + 1))
  }

  /** The changes of epoch e from position p up to n, then Synced at n. */
  function Catchup(log: seq<Op>, e: nat, p: nat, n: nat): seq<Action>
    requires p <= n <= |log|
    decreases n - p
  {
    if p == n then [Recv(Synced(At(e, n)), GOOD)] else [Recv(ChangeAt(log, e, p), GOOD)] + Catchup(log, e, p + 1, n)
  }

  lemma {:induction false} GoodFlush(w: World, s: Sink)
    ensures Flush(w, s, GOOD).ok
  {
  }

  lemma {:induction false} GoodChange(sys: Sys, c: Change)
    requires !sys.s.failed && (c.Upsert? || c.Delete?)
    ensures Apply(sys.w, sys.s, c, GOOD).ok && !Apply(sys.w, sys.s, c, GOOD).s.failed
  {
    hide Commit, HubKey.Key, RowOf;
    var s1 := match c
      case Upsert(key, None, _) =>
        if sys.s.resetting then sys.s.(touched := sys.s.touched + {HubKey.Key(sys.s.schedd, key)}) else sys.s
      case Upsert(key, Some(ad), _) => UpsertRow(sys.w, sys.s, key, ad, GOOD.now)
      case Delete(key, _) => DeleteRow(sys.w, sys.s, key);
    GoodFlush(sys.w, NoteCursor(s1, c.cursor));
  }

  lemma {:induction false} GoodSynced(sys: Sys, c: Cursor)
    requires !sys.s.failed && !sys.s.resetting
    ensures Apply(sys.w, sys.s, Synced(c), GOOD).ok
  {
    hide Commit;
  }

  lemma {:induction false} CatchupRuns(sys: Sys, e: nat, p: nat, n: nat, logs: Logs)
    requires Inv(sys, logs) && !sys.s.failed && sys.feed == Live(e, p) && p <= n <= |logs(e)| && High(sys.high, e) <= n
    ensures var acts := Catchup(logs(e), e, p, n);
            && (forall exposed :: ValidRun(sys, exposed, acts, logs)) && Run(sys, acts).feed == Live(e, n) &&
                !Run(sys, acts).s.failed
            && Mirrors(IdOf(Run(sys, acts).s), Run(sys, acts).w.rows, State(logs(e), n))
    decreases n - p
  {
    hide Inv, Mirrors, State, Next, Exposure, Allowed;
    var acts := Catchup(logs(e), e, p, n);
    var next := Next(sys, acts[0]);
    if p == n {
      CatchupEnd(sys, e, n, logs);
      assert acts == [Recv(Synced(At(e, n)), GOOD)];
      assert acts[1..] == [];
      assert Run(sys, acts) == Run(next, []) == next;
      assert forall exposed :: ValidRun(next, exposed, [], logs);
    } else {
      ChangeRuns(sys, e, p, n, logs);
      StepInv(sys, acts[0], logs);
      assert acts[1..] == Catchup(logs(e), e, p + 1, n);
      CatchupRuns(next, e, p + 1, n, logs);
    }
  }

  /** One change of the catch-up is delivered and taken. */
  lemma {:induction false} ChangeRuns(sys: Sys, e: nat, p: nat, n: nat, logs: Logs)
    requires !sys.s.failed && sys.feed == Live(e, p) && p < n <= |logs(e)| && High(sys.high, e) <= n
    ensures var a := Recv(ChangeAt(logs(e), e, p), GOOD); var next := Next(sys, a);
            Allowed(sys, a, logs) && !next.s.failed && next.feed == Live(e, p + 1) && High(next.high, e) <= n
  {
    hide Apply;
    var c := ChangeAt(logs(e), e, p);
    GoodChange(sys, c);
    assert Delivers(sys, c, GOOD, logs);
    RaiseBound(sys.high, e, p + 1, n);
  }

  lemma {:induction false} RaiseBound(high: map<nat, nat>, e: nat, p: nat, n: nat)
    requires High(high, e) <= n && p <= n
    ensures High(Raise(high, Live(e, p)), e) <= n
  {
  }

  lemma {:induction false} CatchupEnd(sys: Sys, e: nat, n: nat, logs: Logs)
    requires Inv(sys, logs) && !sys.s.failed && sys.feed == Live(e, n) && n <= |logs(e)| && High(sys.high, e) <= n
    ensures var a := Recv(Synced(At(e, n)), GOOD); var next := Next(sys, a);
            && Allowed(sys, a, logs) && next.feed == Live(e, n) && !next.s.failed
            && Mirrors(IdOf(next.s), next.w.rows, State(logs(e), n))
  {
    hide Mirrors, Ahead, State, View;
    var c := Synced(At(e, n));
    assert Delivers(sys, c, GOOD, logs);
    GoodSynced(sys, At(e, n));
    LiveExact(sys, logs);
    SyncedLiveInv(sys, c, GOOD, logs);
    SyncedKeepsId(sys.w, sys.s, At(e, n), GOOD);
  }

  /** The resume from any idle state of such a run. */
  lemma {:induction false} ResumeHeals(sys: Sys, n: nat, logs: Logs)
    requires Inv(sys, logs) && sys.feed.Idle? && sys.s.cur.At?
    requires n <= |logs(sys.s.cur.epoch)| && High(sys.high, sys.s.cur.epoch) <= n && sys.s.cur.pos <= n
    ensures var e, p := sys.s.cur.epoch, sys.s.cur.pos;
            var acts := [Begin(true)] + Catchup(logs(e), e, p, n);
            && (forall exposed :: ValidRun(sys, exposed, acts, logs))
            && Mirrors(IdOf(Run(sys, acts).s), Run(sys, acts).w.rows, State(logs(e), n))
  {
    hide Inv, Mirrors, State;
    var e, p := sys.s.cur.epoch, sys.s.cur.pos;
    var acts := [Begin(true)] + Catchup(logs(e), e, p, n);
    StepInv(sys, Begin(true), logs);
    CatchupRuns(Next(sys, Begin(true)), e, p, n, logs);
    assert acts[1..] == Catchup(logs(e), e, p, n);
  }

  /** A run whether or not the table is exposed. */
  ghost predicate ValidAlways(sys: Sys, acts: seq<Action>, logs: Logs) {
    forall exposed :: ValidRun(sys, exposed, acts, logs)
  }

  /** Runs compose. */
  lemma {:induction false} RunConcat(sys: Sys, exposed: bool, a: seq<Action>, b: seq<Action>, logs: Logs)
    requires ValidRun(sys, exposed, a, logs) && ValidAlways(Run(sys, a), b, logs)
    ensures ValidRun(sys, exposed, a + b, logs) && Run(sys, a + b) == Run(Run(sys, a), b)
    decreases |a|
  {
    hide Next, Exposure, Allowed;
    if a == [] {
      assert a + b == b && Run(sys, a) == sys;
      assert ValidRun(sys, exposed, b, logs);
    } else {
      assert (a + b)[1..] == a[1..] + b;
      assert Run(sys, a) == Run(Next(sys, a[0]), a[1..]);
      RunConcat(Next(sys, a[0]), Exposure(sys, a[0], exposed), a[1..], b, logs);
    }
  }

  /** After any such run that ends idle with a committed cursor, one undisturbed session that resumes from it is
      a run again and makes the schedd's rows equal to the source's: the committed cursor always heals. */
  lemma {:induction false} CursorHeals(rows: Rows, schedd: string, status: bool, acts: seq<Action>, n: nat, logs: Logs)
    requires RowsOk(rows) && ValidRun(Start(rows, schedd, status), false, acts, logs)
    requires var sys := Run(Start(rows, schedd, status), acts);
             && sys.feed.Idle? && sys.s.cur.At? && n <= |logs(sys.s.cur.epoch)|
             && High(sys.high, sys.s.cur.epoch) <= n && sys.s.cur.pos <= n
    ensures var start := Start(rows, schedd, status);
            var sys := Run(start, acts);
            var e, p := sys.s.cur.epoch, sys.s.cur.pos;
            var all := acts + ([Begin(true)] + Catchup(logs(e), e, p, n));
            && ValidRun(start, false, all, logs)
            && Mirrors(IdOf(Run(start, all).s), Run(start, all).w.rows, State(logs(e), n))
  {
    hide Inv, StoredOk, Run, ValidRun, Mirrors, State, Catchup;
    var start := Start(rows, schedd, status);
    StartInv(rows, schedd, status, logs);
    RunInv(start, false, acts, logs);
    var sys := Run(start, acts);
    ResumeHeals(sys, n, logs);
    RunConcat(start, false, acts, [Begin(true)] + Catchup(logs(sys.s.cur.epoch), sys.s.cur.epoch, sys.s.cur.pos, n),
              logs);
  }

  // ---------------------------------------------------------------------------------------
  // What an action can leave in the table.

  lemma {:induction false} FlushKeepsId(w: World, s: Sink, f: Faults)
    ensures IdOf(Flush(w, s, f).s) == IdOf(s)
  {
    hide Commit;
  }

  lemma {:induction false} RowKeepsId(w: World, s: Sink, key: string, ad: Ad, now: int)
    ensures IdOf(UpsertRow(w, s, key, ad, now)) == IdOf(s) && IdOf(DeleteRow(w, s, key)) == IdOf(s)
  {
    hide HubKey.Key, RowOf;
  }

  lemma {:induction false} AfterKeepsId(w: World, s: Sink, c: Cursor, f: Faults)
    ensures IdOf(AfterRow(w, s, c, f).s) == IdOf(s)
  {
    hide Flush;
    FlushKeepsId(w, NoteCursor(s, c), f);
  }

  /** The sink's schedd and table never change. */
  lemma {:induction false} NextKeepsId(sys: Sys, a: Action)
    ensures IdOf(Next(sys, a).s) == IdOf(sys.s)
  {
    hide Flush, UpsertRow, DeleteRow, AfterRow, ApplySynced, HubKey.Key;
    var w, s := sys.w, sys.s;
    match a {
      case FlushNow(f) => FlushKeepsId(w, s, f);
      case Recv(c, f) =>
        match c {
          case Upsert(key, None, cur) =>
            AfterKeepsId(w, s, cur, f);
            AfterKeepsId(w, s.(touched := s.touched + {HubKey.Key(s.schedd, key)}), cur, f);
          case Upsert(key, Some(ad), cur) =>
            RowKeepsId(w, s, key, ad, f.now);
            AfterKeepsId(w, UpsertRow(w, s, key, ad, f.now), cur, f);
          case Delete(key, cur) =>
            RowKeepsId(w, s, key, map[], f.now);
            AfterKeepsId(w, DeleteRow(w, s, key), cur, f);
          case Reset(cur) =>
            FlushKeepsId(w, s, f);
            var r := ApplyReset(w, s, f);
            AfterKeepsId(r.w, r.s, cur, f);
          case Synced(cur) => SyncedKeepsId(w, s, cur, f);
          case Gap(cur) => AfterKeepsId(w, s, cur, f);
        }
      case _ =>
    }
  }

  lemma {:induction false} RunKeepsId(sys: Sys, acts: seq<Action>)
    ensures IdOf(Run(sys, acts).s) == IdOf(sys.s)
    decreases |acts|
  {
    hide Next;
    if acts != [] {
      NextKeepsId(sys, acts[0]);
      RunKeepsId(Next(sys, acts[0]), acts[1..]);
    }
  }

  /** Every row of the schedd is one of the pool's. */
  ghost predicate Within(schedd: string, rows: Rows, pool: set<(string, Ad)>) {
    forall hk :: hk in rows && Owned(schedd, hk) ==> (hk, rows[hk]) in pool
  }

  /** The rows of the table and of the sink's view of it. */
  function Pool(sys: Sys): set<(string, Ad)> {
    (set hk | hk in sys.w.rows :: (hk, sys.w.rows[hk])) + (set hk | hk in TheView(sys) :: (hk, TheView(sys)[hk]))
  }

  /** The row an action upserts. */
  function Upserted(sys: Sys, a: Action): set<(string, Ad)> {
    if a.Recv? && !sys.s.failed && a.c.Upsert? && a.c.ad.Some? then
      var hk := HubKey.Key(sys.s.schedd, a.c.key);
      {(hk, RowOf(sys.s, Lookup(sys.w.rows, sys.s.tx, hk), a.c.ad.value, a.f.now))}
    else {}
  }

  lemma {:induction false} PoolWithin(sys: Sys, pool: set<(string, Ad)>)
    requires Pool(sys) <= pool
    ensures Within(sys.s.schedd, sys.w.rows, pool) && Within(sys.s.schedd, TheView(sys), pool)
  {
    hide Owned, View;
  }

  lemma {:induction false} WithinSub(schedd: string, rows: Rows, sub: Rows, pool: set<(string, Ad)>)
    requires Within(schedd, rows, pool)
    requires forall k :: k in sub && Owned(schedd, k) ==> k in rows && sub[k] == rows[k]
    ensures Within(schedd, sub, pool)
  {
    hide Owned;
  }

  /** An action leaves only rows that were in the table or the view, and the row it upserts. */
  lemma {:induction false} NextWithin(sys: Sys, a: Action, logs: Logs)
    requires Inv(sys, logs) && Allowed(sys, a, logs)
    ensures var next, pool := Next(sys, a), Pool(sys) + Upserted(sys, a);
            Within(sys.s.schedd, next.w.rows, pool) && Within(sys.s.schedd, TheView(next), pool)
  {
    hide Inv, Commit, HubKey.Key, Within, UpsertRow, DeleteRow, SweepFrom, Stale, Owned, Pool, Upserted, Apply;
    var pool := Pool(sys) + Upserted(sys, a);
    PoolWithin(sys, pool);
    match a {
      case FlushNow(f) => FlushWithin(sys.w, sys.s, f, pool); ViewNone(Flush(sys.w, sys.s, f).w.rows);
      case Others(rows) => OthersWithin(sys, rows, pool, logs);
      case Recv(c, f) => if sys.s.failed { SameApply(sys, c, f); } else { RecvWithin(sys, c, f, logs); }
      case _ => ViewNone(sys.w.rows);
    }
  }

  lemma {:induction false} SameApply(sys: Sys, c: Change, f: Faults)
    requires sys.s.failed
    ensures Apply(sys.w, sys.s, c, f) == Done(sys.w, sys.s, false)
  {
  }

  lemma {:induction false} FlushWithin(w: World, s: Sink, f: Faults, pool: set<(string, Ad)>)
    requires Within(s.schedd, w.rows, pool) && Within(s.schedd, View(w.rows, s.tx), pool)
    ensures var r := Flush(w, s, f);
            && Within(s.schedd, r.w.rows, pool) && Within(s.schedd, View(r.w.rows, r.s.tx), pool)
            && View(r.w.rows, None) == r.w.rows && r.s.schedd == s.schedd
            && (r.ok ==> r.w.rows == View(w.rows, s.tx) && r.s.tx.None?)
  {
    hide Within, View, CommitTxn, SaveCursor;
    CommitView(w, s, f.commit);
    var r := CommitTxn(w, s, f.commit);
    SaveSame(r.w, r.s, f.save);
    ViewNone(Flush(w, s, f).w.rows);
  }

  lemma {:induction false} CommitView(w: World, s: Sink, o: Outcome)
    ensures var r := CommitTxn(w, s, o);
            && (r.w.rows == w.rows || r.w.rows == View(w.rows, s.tx))
            && (r.ok ==> r.w.rows == View(w.rows, s.tx))
            && View(r.w.rows, r.s.tx) == r.w.rows && r.s.tx.None? && r.s.schedd == s.schedd && r.s.status == s.status
  {
    hide Commit;
    ViewNone(w.rows);
    if s.tx.Some? { ViewNone(Commit(w.rows, s.tx.value)); }
  }

  lemma {:induction false} SaveSame(w: World, s: Sink, o: Outcome)
    ensures var r := SaveCursor(w, s, o);
            r.w.rows == w.rows && r.s.tx == s.tx && r.s.schedd == s.schedd && r.s.status == s.status
  {
  }

  lemma {:induction false} OthersWithin(sys: Sys, rows: Rows, pool: set<(string, Ad)>, logs: Logs)
    requires Inv(sys, logs) && Allowed(sys, Others(rows), logs)
    requires Within(sys.s.schedd, sys.w.rows, pool) && Within(sys.s.schedd, TheView(sys), pool)
    ensures Within(sys.s.schedd, rows, pool) && Within(sys.s.schedd, View(rows, sys.s.tx), pool)
  {
    hide HubKey.Key, Owned, NamedRow, Commit, FeedInv, Heals;
    OthersView(sys.s, sys.w.rows, rows);
    WithinSub(sys.s.schedd, sys.w.rows, rows, pool);
    WithinSub(sys.s.schedd, TheView(sys), View(rows, sys.s.tx), pool);
  }

  /** After an upsert or a delete, before the batch is flushed. */
  lemma {:induction false} RowWithin(sys: Sys, c: Change, f: Faults)
    requires !sys.s.failed && ((c.Upsert? && c.ad.Some?) || c.Delete?)
    ensures var s1 := if c.Upsert? then UpsertRow(sys.w, sys.s, c.key, c.ad.value, f.now)
            else DeleteRow(sys.w, sys.s, c.key);
            var pool := Pool(sys) + Upserted(sys, Recv(c, f));
            && s1.schedd == sys.s.schedd
            && Within(s1.schedd, sys.w.rows, pool) && Within(s1.schedd, View(sys.w.rows, s1.tx), pool)
  {
    hide HubKey.Key, Owned, Commit, UpsertRow, DeleteRow, Pool;
    var pool := Pool(sys) + Upserted(sys, Recv(c, f));
    PoolWithin(sys, pool);
    if c.Upsert? {
      var row := UpsertView(sys.w, sys.s, c.key, c.ad.value, f.now);
    } else {
      DeleteView(sys.w, sys.s, c.key);
      WithinSub(sys.s.schedd, TheView(sys), View(sys.w.rows, DeleteRow(sys.w, sys.s, c.key).tx), pool);
    }
  }

  lemma {:induction false} RecvWithin(sys: Sys, c: Change, f: Faults, logs: Logs)
    requires Inv(sys, logs) && Allowed(sys, Recv(c, f), logs) && !sys.s.failed
    ensures var next, pool := Next(sys, Recv(c, f)), Pool(sys) + Upserted(sys, Recv(c, f));
            Within(sys.s.schedd, next.w.rows, pool) && Within(sys.s.schedd, TheView(next), pool)
  {
    hide HubKey.Key, Owned, Within, Commit, UpsertRow, DeleteRow, Flush, CommitTxn, SweepFrom, Stale, Inv, SaveCursor,
         Pool, Upserted;
    var pool := Pool(sys) + Upserted(sys, Recv(c, f));
    PoolWithin(sys, pool);
    match c {
      case Upsert(_, _, _) =>
        RowWithin(sys, c, f);
        FlushWithin(sys.w, NoteCursor(UpsertRow(sys.w, sys.s, c.key, c.ad.value, f.now), c.cursor), f, pool);
        ViewNone(sys.w.rows);
      case Delete(_, _) =>
        RowWithin(sys, c, f);
        FlushWithin(sys.w, NoteCursor(DeleteRow(sys.w, sys.s, c.key), c.cursor), f, pool);
        ViewNone(sys.w.rows);
      case Reset(_) => ResetWithin(sys, f, pool);
      case Synced(_) => SyncedWithin(sys, c, f, pool);
      case Gap(_) =>
    }
  }

  lemma {:induction false} ResetWithin(sys: Sys, f: Faults, pool: set<(string, Ad)>)
    requires !sys.s.failed
    requires Within(sys.s.schedd, sys.w.rows, pool) && Within(sys.s.schedd, TheView(sys), pool)
    ensures var next := Next(sys, Recv(Reset(Empty), f));
            Within(sys.s.schedd, next.w.rows, pool) && Within(sys.s.schedd, TheView(next), pool)
  {
    hide HubKey.Key, Within, Commit, Flush;
    FlushWithin(sys.w, sys.s, f, pool);
    var r := ApplyReset(sys.w, sys.s, f);
    if r.ok {
      FlushWithin(r.w, NoteCursor(r.s, Empty), f, pool);
    } else {
      ViewNone(r.w.rows);
    }
  }

  lemma {:induction false} SyncedWithin(sys: Sys, c: Change, f: Faults, pool: set<(string, Ad)>)
    requires !sys.s.failed && c.Synced?
    requires Within(sys.s.schedd, sys.w.rows, pool) && Within(sys.s.schedd, TheView(sys), pool)
    ensures var next := Next(sys, Recv(c, f));
            Within(sys.s.schedd, next.w.rows, pool) && Within(sys.s.schedd, TheView(next), pool)
  {
    hide HubKey.Key, Within, View, ApplySynced;
    var base := SyncedShape(sys.w, sys.s, c.cursor, f);
    var r := ApplySynced(sys.w, sys.s, c.cursor, f);
    ViewNone(r.w.rows);
    WithinSub(sys.s.schedd, base, r.w.rows, pool);
  }

  /** A Synced leaves rows of the committed table or of the view, and no transaction. */
  lemma {:induction false} SyncedShape(w: World, s: Sink, c: Cursor, f: Faults) returns (base: Rows)
    ensures base == w.rows || base == View(w.rows, s.tx)
    ensures var r := ApplySynced(w, s, c, f);
            && r.s.tx.None? && r.s.schedd == s.schedd && r.s.status == s.status
            && forall hk :: hk in r.w.rows ==> hk in base && r.w.rows[hk] == base[hk]
  {
    hide View, CommitTxn, SaveCursor, SweepFrom, Stale;
    CommitView(w, s, f.commit);
    var r := CommitTxn(w, s, f.commit);
    base := r.w.rows;
    var r1 := if r.s.resetting then Sweep(r.w, r.s, f) else r;
    if r.s.resetting && f.scan.Some? {
      SweepRemoves(r.w.rows, Stale(f.scan.value, r.s.touched), 0, f.sweep);
    }
    var s1 := if r.s.resetting then r1.s.(resetting := false, touched := {}) else r1.s;
    SaveSame(r1.w, NoteCursor(s1.(catchup := false), c), f.save);
  }

  // ---------------------------------------------------------------------------------------
  // Receipt times.

  /** A stored receipt time is a time at which that very heartbeat arrived outside catch-up. */
  ghost predicate Received(s: Sink, rows: Rows, receipts: set<Receipt>) {
    forall hk :: hk in rows && Owned(s.schedd, hk) && RECEIVED in rows[hk] ==> RowReceived(hk, rows[hk], receipts)
  }

  predicate RowReceived(hk: string, row: Ad, receipts: set<Receipt>) {
    && RECEIVED in row && row[RECEIVED].IntV?
    && Receipt(hk, IntOf(row, SEQ), IntOf(row, BEAT), row[RECEIVED].i) in receipts
  }

  ghost predicate ReceiptInv(sys: Sys) {
    sys.s.status ==> Received(sys.s, sys.w.rows, sys.receipts) && Received(sys.s, TheView(sys), sys.receipts)
  }

  lemma {:induction false} StampReceived(s: Sink, hk: string, stored: Option<Ad>, c: Change, now: int,
                                         receipts: set<Receipt>)
    requires s.status && !s.failed && c.Upsert? && c.ad.Some? && hk == HubKey.Key(s.schedd, c.key)
    requires stored.Some? && RECEIVED in stored.value ==> RowReceived(hk, stored.value, receipts)
    requires RECEIVED in RowOf(s, stored, c.ad.value, now)
    ensures RowReceived(hk, RowOf(s, stored, c.ad.value, now), receipts + Receipts(s, c, now))
  {
    hide HubKey.Key;
    var row := RowOf(s, stored, c.ad.value, now);
    assert IntOf(row, SEQ) == IntOf(c.ad.value, SEQ) && IntOf(row, BEAT) == IntOf(c.ad.value, BEAT);
  }

  /** A row an action may leave has a genuine receipt time if any. */
  lemma {:induction false} PoolReceived(sys: Sys, a: Action, hk: string, row: Ad)
    requires ReceiptInv(sys) && sys.s.status && Owned(sys.s.schedd, hk) && RECEIVED in row
    requires (hk, row) in Pool(sys) + Upserted(sys, a)
    ensures RowReceived(hk, row, Next(sys, a).receipts)
  {
    hide HubKey.Key, Owned, View, Apply, FlushCall;
    if (hk, row) in Pool(sys) {
      assert RowReceived(hk, row, sys.receipts);
    } else {
      ViewLookup(sys.w.rows, sys.s.tx, hk);
      StampReceived(sys.s, hk, Lookup(sys.w.rows, sys.s.tx, hk), a.c, a.f.now, sys.receipts);
    }
  }

  lemma {:induction false} ReceiptStep(sys: Sys, a: Action, logs: Logs)
    requires Inv(sys, logs) && Allowed(sys, a, logs) && ReceiptInv(sys)
    ensures ReceiptInv(Next(sys, a))
  {
    hide Inv, Next, Owned, RowReceived, Pool, Upserted, View;
    NextKeepsId(sys, a);
    if sys.s.status {
      var next := Next(sys, a);
      NextWithin(sys, a, logs);
      forall hk | hk in next.w.rows && Owned(sys.s.schedd, hk) && RECEIVED in next.w.rows[hk]
        ensures RowReceived(hk, next.w.rows[hk], next.receipts)
      {
        PoolReceived(sys, a, hk, next.w.rows[hk]);
      }
      forall hk | hk in TheView(next) && Owned(sys.s.schedd, hk) && RECEIVED in TheView(next)[hk]
        ensures RowReceived(hk, TheView(next)[hk], next.receipts)
      {
        PoolReceived(sys, a, hk, TheView(next)[hk]);
      }
    }
  }

  lemma {:induction false} RunReceipts(sys: Sys, exposed: bool, acts: seq<Action>, logs: Logs)
    requires Inv(sys, logs) && (!exposed ==>
                                StoredOk(sys, logs)) && ReceiptInv(sys) && ValidRun(sys, exposed, acts, logs)
    ensures ReceiptInv(Run(sys, acts))
    decreases |acts|
  {
    hide Inv, Allowed, Next, ReceiptInv, Exposure, StoredOk;
    if acts != [] {
      ExposureStep(sys, acts[0], exposed, logs);
      ReceiptStep(sys, acts[0], logs);
      RunReceipts(Next(sys, acts[0]), Exposure(sys, acts[0], exposed), acts[1..], logs);
    }
  }

  /** A hub that holds no row of this schedd has no receipt time of its to account for. */
  lemma {:induction false} StartReceipts(rows: Rows, schedd: string, status: bool)
    requires forall hk :: hk in rows ==> !Owned(schedd, hk)
    ensures ReceiptInv(Start(rows, schedd, status))
  {
    hide Owned;
    ViewNone(rows);
  }

  /** Over any run from a hub that held none of this schedd's rows, every stored receipt time is genuine. */
  lemma {:induction false} ReceiptsGenuine(rows: Rows, schedd: string, status: bool, acts: seq<Action>, logs: Logs)
    requires RowsOk(rows) && (forall hk :: hk in rows ==> !Owned(schedd, hk))
    requires ValidRun(Start(rows, schedd, status), false, acts, logs)
    ensures ReceiptInv(Run(Start(rows, schedd, status), acts))
  {
    hide Inv, ReceiptInv, StoredOk, Owned, RowsOk, Run, ValidRun;
    StartInv(rows, schedd, status, logs);
    StartReceipts(rows, schedd, status);
    RunReceipts(Start(rows, schedd, status), false, acts, logs);
  }
}
