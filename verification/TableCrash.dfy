/** What a crash costs a table whose stored cursor ran ahead of the sink's (federate/cursorstore.go): exactly
    when a session resumed from the stored cursor still repairs it, and a schedule after which it does not. */
module TableCrash {
  import opened Text
  import opened Store
  import HubKey
  import opened TableSpec
  import opened TableRun
  import opened TableTheorems

  // ---------------------------------------------------------------------------------------
  // An undisturbed catch-up over any rows.

  /** The source changes k between positions p and n. */
  predicate Changed(log: seq<Op>, k: string, p: nat, n: nat) { exists i :: p <= i < n && i < |log| && log[i].key == k }

  lemma {:induction false} Unchanged(log: seq<Op>, k: string, p: nat, n: nat)
    requires p <= n <= |log| && !Changed(log, k, p, n)
    ensures k in State(log, n) <==> k in State(log, p)
    ensures k in State(log, p) ==> State(log, n)[k] == State(log, p)[k]
    decreases n
  {
    if p < n {
      assert log[n - 1].key != k;
      Unchanged(log, k, p, n - 1);
    }
  }

  /** Key k as the catch-up leaves it: as the source has it if the source changed it, else untouched. */
  ghost predicate CaughtUp(id: Id, before: Rows, after: Rows, log: seq<Op>, k: string, p: nat, n: nat)
    requires n <= |log|
  {
    Have(id, after, k) == if Changed(log, k, p, n) then WantIn(id, State(log, n), k) else Have(id, before, k)
  }

  /** One delivered change puts its key level with the source and moves no other. */
  lemma {:induction false} ChangeView(sys: Sys, e: nat, p: nat, logs: Logs)
    requires !sys.s.failed && sys.feed == Live(e, p) && p < |logs(e)| && !sys.s.resetting
    ensures var next := Next(sys, Recv(ChangeAt(logs(e), e, p), GOOD));
            && next.feed == Live(e, p + 1) && !next.s.failed && !next.s.resetting && IdOf(next.s) == IdOf(sys.s)
            && forall k :: Have(IdOf(sys.s), TheView(next), k) ==
                           if k == logs(e)[p].key then WantIn(IdOf(sys.s), State(logs(e), p + 1), k)
                           else Have(IdOf(sys.s), TheView(sys), k)
  {
    hide HubKey.Key, UpsertRow, DeleteRow, Commit, AfterRow, Core, Named, RowOf;
    var c := ChangeAt(logs(e), e, p);
    GoodChange(sys, c);
    NextKeepsId(sys, Recv(c, GOOD));
    var id := IdOf(sys.s);
    match c {
      case Upsert(key, Some(ad), cur) =>
        var row := UpsertView(sys.w, sys.s, key, ad, GOOD.now);
        HavePut(id, TheView(sys), key, row);
        AfterView(sys.w, UpsertRow(sys.w, sys.s, key, ad, GOOD.now), cur);
      case Delete(key, cur) =>
        DeleteView(sys.w, sys.s, key);
        HaveDrop(id, TheView(sys), key);
        AfterView(sys.w, DeleteRow(sys.w, sys.s, key), cur);
      case _ =>
    }
  }

  lemma {:induction false} AfterView(w: World, s: Sink, c: Cursor)
    ensures var r := AfterRow(w, s, c, GOOD);
            r.ok && View(r.w.rows, r.s.tx) == View(w.rows, s.tx) && r.s.resetting == s.resetting &&
                r.s.failed == s.failed
  {
    hide Commit;
    ViewNone(w.rows);
    if s.tx.Some? { ViewNone(Commit(w.rows, s.tx.value)); }
  }

  lemma {:induction false} SyncedView(sys: Sys, e: nat, n: nat)
    requires !sys.s.failed && sys.feed == Live(e, n) && !sys.s.resetting
    ensures var next := Next(sys, Recv(Synced(At(e, n)), GOOD));
            next.w.rows == TheView(sys) && IdOf(next.s) == IdOf(sys.s) && !next.s.failed && next.feed == Live(e, n)
  {
    hide Commit;
    ViewNone(sys.w.rows);
  }

  lemma {:induction false} CatchupRows(sys: Sys, e: nat, p: nat, n: nat, logs: Logs)
    requires !sys.s.failed && sys.feed == Live(e, p) && p <= n <= |logs(e)| && !sys.s.resetting
    ensures var end := Run(sys, Catchup(logs(e), e, p, n));
            && IdOf(end.s) == IdOf(sys.s) && !end.s.failed && end.feed == Live(e, n)
            && forall k :: CaughtUp(IdOf(sys.s), TheView(sys), end.w.rows, logs(e), k, p, n)
    decreases n - p
  {
    hide Next, Have, WantIn, State, View;
    var acts := Catchup(logs(e), e, p, n);
    var next := Next(sys, acts[0]);
    if p == n {
      SyncedView(sys, e, n);
      assert acts[1..] == [];
      assert Run(sys, acts) == Run(next, []) == next;
    } else {
      ChangeView(sys, e, p, logs);
      CatchupRows(next, e, p + 1, n, logs);
      assert acts[1..] == Catchup(logs(e), e, p + 1, n);
      var end := Run(sys, acts);
      forall k ensures CaughtUp(IdOf(sys.s), TheView(sys), end.w.rows, logs(e), k, p, n) {
        assert CaughtUp(IdOf(sys.s), TheView(next), end.w.rows, logs(e), k, p + 1, n);
        ChangedStep(IdOf(sys.s), logs(e), k, p, n);
      }
    }
  }

  lemma {:induction false} ChangedStep(id: Id, log: seq<Op>, k: string, p: nat, n: nat)
    requires p < n <= |log|
    ensures Changed(log, k, p, n) <==> log[p].key == k || Changed(log, k, p + 1, n)
    ensures !Changed(log, k, p + 1, n) ==> WantIn(id, State(log, n), k) == WantIn(id, State(log, p + 1), k)
  {
    hide State;
    if !Changed(log, k, p + 1, n) { Unchanged(log, k, p + 1, n); }
    if Changed(log, k, p + 1, n) {
      var i :| p + 1 <= i < n && i < |log| && log[i].key == k;
    }
    if log[p].key == k { assert Changed(log, k, p, n); }
  }

  // ---------------------------------------------------------------------------------------
  // After a crash.

  /** The session after a crash, undisturbed: it resumes from the stored cursor and catches up to n. */
  function Restart(e: nat, p: nat, n: nat, log: seq<Op>): seq<Action>
    requires p <= n <= |log|
  {
    [Crash, Begin(true)] + Catchup(log, e, p, n)
  }

  /** Key k's row is as old as the stored cursor, or the source changes it again past it. */
  predicate KeyKept(id: Id, rows: Rows, log: seq<Op>, k: string, p: nat, n: nat)
    requires p <= |log|
  {
    Have(id, rows, k) == WantIn(id, State(log, p), k) || Changed(log, k, p, n)
  }

  /** No row is older than the stored cursor, unless the source changes it again past it. */
  ghost predicate NoneLeftBehind(id: Id, rows: Rows, log: seq<Op>, p: nat, n: nat)
    requires p <= |log|
  {
    forall k :: KeyKept(id, rows, log, k, p, n)
  }

  /** Whatever state a crash finds, the session resumed from the stored cursor makes the rows the source's
      exactly when no row was left behind that cursor. */
  lemma {:induction false} CrashRepairedIff(sys: Sys, n: nat, logs: Logs)
    requires sys.w.durable.At? && sys.w.durable.pos <= n <= |logs(sys.w.durable.epoch)|
    ensures var e, p := sys.w.durable.epoch, sys.w.durable.pos;
            var end := Run(sys, Restart(e, p, n, logs(e)));
            && end.feed == Live(e, n) && !end.s.failed
            && (Mirrors(IdOf(end.s), end.w.rows, State(logs(e), n)) <==>
                NoneLeftBehind(IdOf(sys.s), sys.w.rows, logs(e), p, n))
  {
    hide Have, WantIn, State, View, Changed, Next, Mirrors;
    var e, p := sys.w.durable.epoch, sys.w.durable.pos;
    var log, id := logs(e), IdOf(sys.s);
    var s2 := Restarted(sys);
    RestartRuns(sys, n, log);
    CatchupRows(s2, e, p, n, logs);
    var end := Run(sys, Restart(e, p, n, log));
    forall k ensures KeyRight(id, end.w.rows, log, k, n) <==> KeyKept(id, sys.w.rows, log, k, p, n) {
      assert CaughtUp(id, sys.w.rows, end.w.rows, log, k, p, n);
      if !Changed(log, k, p, n) { SameWant(id, log, k, p, n); }
    }
    MirrorsKeys(id, end.w.rows, log, n);
  }

  predicate KeyRight(id: Id, rows: Rows, log: seq<Op>, k: string, n: nat)
    requires n <= |log|
  {
    Have(id, rows, k) == WantIn(id, State(log, n), k)
  }

  lemma {:induction false} MirrorsKeys(id: Id, rows: Rows, log: seq<Op>, n: nat)
    requires n <= |log|
    ensures Mirrors(id, rows, State(log, n)) <==> forall k :: KeyRight(id, rows, log, k, n)
  {
    hide Have, WantIn, State;
    if forall k :: KeyRight(id, rows, log, k, n) {
      forall k ensures Have(id, rows, k) == WantIn(id, State(log, n), k) { assert KeyRight(id, rows, log, k, n); }
    }
  }

  /** The crash and the session begun from the stored cursor. */
  function Restarted(sys: Sys): Sys { Next(Next(sys, Crash), Begin(true)) }

  lemma {:induction false} RestartRuns(sys: Sys, n: nat, log: seq<Op>)
    requires sys.w.durable.At? && sys.w.durable.pos <= n <= |log|
    ensures var e, p := sys.w.durable.epoch, sys.w.durable.pos;
            var s2 := Restarted(sys);
            && Run(sys, Restart(e, p, n, log)) == Run(s2, Catchup(log, e, p, n))
            && s2.feed == Live(e, p) && !s2.s.failed && !s2.s.resetting && IdOf(s2.s) == IdOf(sys.s)
            && TheView(s2) == sys.w.rows
  {
    hide Commit;
    var e, p := sys.w.durable.epoch, sys.w.durable.pos;
    var acts, tail := Restart(e, p, n, log), Catchup(log, e, p, n);
    assert acts[1..] == [Begin(true)] + tail && acts[1..][1..] == tail;
    assert Run(sys, acts) == Run(Next(sys, Crash), acts[1..]) == Run(Restarted(sys), tail);
    ViewNone(sys.w.rows);
  }

  lemma {:induction false} SameWant(id: Id, log: seq<Op>, k: string, p: nat, n: nat)
    requires p <= n <= |log| && !Changed(log, k, p, n)
    ensures WantIn(id, State(log, n), k) == WantIn(id, State(log, p), k)
  {
    hide State;
    Unchanged(log, k, p, n);
  }

  /** In a run, an unexposed table has left no row behind: every crash ValidRun allows is repaired. */
  lemma {:induction false} UnexposedRepaired(sys: Sys, n: nat, logs: Logs)
    requires Inv(sys, logs) && StoredOk(sys, logs) && sys.w.durable.At?
    requires n <= |logs(sys.w.durable.epoch)| && High(sys.high, sys.w.durable.epoch) <= n
    ensures sys.w.durable.pos <= n
    ensures NoneLeftBehind(IdOf(sys.s), sys.w.rows, logs(sys.w.durable.epoch), sys.w.durable.pos, n)
  {
    hide Have, WantIn, State, Changed;
    var e, p := sys.w.durable.epoch, sys.w.durable.pos;
    var id, log := IdOf(sys.s), logs(e);
    forall k ensures KeyKept(id, sys.w.rows, log, k, p, n) {
      assert Seen(id, sys.w.rows, k, log, p, High(sys.high, e));
      var r :| p <= r <= High(sys.high, e) && r <= |log| && Have(id, sys.w.rows, k) == WantIn(id, State(log, r), k);
      if !Changed(log, k, p, n) {
        Narrower(log, k, p, r, n);
        SameWant(id, log, k, p, r);
      }
    }
  }

  lemma {:induction false} Narrower(log: seq<Op>, k: string, p: nat, r: nat, n: nat)
    requires r <= n && !Changed(log, k, p, n)
    ensures !Changed(log, k, p, r)
  {
  }

  // ---------------------------------------------------------------------------------------
  // The schedule that loses a row.

  function ExposedAfter(sys: Sys, exposed: bool, acts: seq<Action>): bool
    decreases |acts|
  {
    if acts == [] then exposed else ExposedAfter(Next(sys, acts[0]), Exposure(sys, acts[0], exposed), acts[1..])
  }

  /** acts is a valid run from s0 that ends in t, exposed or not. */
  ghost predicate Leads(s0: Sys, acts: seq<Action>, t: Sys, exposed: bool, logs: Logs) {
    ValidRun(s0, false, acts, logs) && Run(s0, acts) == t && ExposedAfter(s0, false, acts) == exposed
  }

  lemma {:induction false} LeadsFrom(sys: Sys, x: bool, acts: seq<Action>, a: Action, logs: Logs)
    requires ValidRun(sys, x, acts, logs)
    requires var t := Run(sys, acts); Allowed(t, a, logs) && (a.Crash? ==> !ExposedAfter(sys, x, acts))
    ensures ValidRun(sys, x, acts + [a], logs) && Run(sys, acts + [a]) == Next(Run(sys, acts), a)
    ensures ExposedAfter(sys, x, acts + [a]) == Exposure(Run(sys, acts), a, ExposedAfter(sys, x, acts))
    decreases |acts|
  {
    hide Next, Allowed, Exposure;
    if acts == [] {
      assert (acts + [a])[1..] == [];
    } else {
      LeadsFrom(Next(sys, acts[0]), Exposure(sys, acts[0], x), acts[1..], a, logs);
      assert (acts + [a])[1..] == acts[1..] + [a];
    }
  }

  lemma {:induction false} LeadsStep(s0: Sys, acts: seq<Action>, t: Sys, x: bool, a: Action, logs: Logs)
    requires Leads(s0, acts, t, x, logs) && Allowed(t, a, logs) && !a.Crash?
    ensures Leads(s0, acts + [a], Next(t, a), Exposure(t, a, x), logs)
  {
    hide Next, Allowed, Exposure, Run, ValidRun, ExposedAfter;
    LeadsFrom(s0, false, acts, a, logs);
  }

  const DIRTY := GOOD.(save := FailedDirty)
  const UNSAVED := GOOD.(save := FailedClean)
  const NOTHING := GOOD.(scan := Some([]))

  function RowFor(schedd: string, a: Ad): Ad { a[SCHEDD_NAME := StrV(schedd)] }

  function OneRow(schedd: string, a: Ad): Rows { map[HubKey.Key(schedd, "k") := RowFor(schedd, a)] }

  predicate TwoVersions(schedd: string, a1: Ad, a2: Ad, logs: Logs) {
    RowFor(schedd, a1) != RowFor(schedd, a2) && logs(0) == [Put("k", a1), Put("k", a2)]
  }

  // The states on the way: a live session at 0, the dirty save of 2, the resume that commits 1, the crash.

  function LiveAt0(schedd: string): Sys {
    Sys(World(map[], At(0, 0)), NewSink(schedd, false, At(0, 0)).(catchup := false), Live(0, 0), map[], {})
  }

  function AfterDirty(schedd: string, a2: Ad): Sys {
    Sys(World(OneRow(schedd, a2), At(0, 2)), NewSink(schedd, false, At(0, 0)).(catchup := false, failed := true), Idle,
        map[0 := 2], {})
  }

  function Behind(schedd: string, a1: Ad): Sys {
    Sys(World(OneRow(schedd, a1), At(0, 2)), NewSink(schedd, false, At(0, 0)).(failed := true), Live(0, 1), map[0 := 2],
        {})
  }

  lemma {:induction false} LeadsNone(s0: Sys, logs: Logs)
    ensures Leads(s0, [], s0, false, logs)
  {
  }

  /** From a hub that never followed the schedd: an empty Reset, then live at 0. */
  lemma {:induction false} ReachLive(schedd: string, logs: Logs)
    ensures Leads(Start(map[], schedd, false),
                  [Begin(false), Recv(Reset(Empty), GOOD), Recv(Synced(At(0, 0)), NOTHING)], LiveAt0(schedd), false,
                      logs)
  {
    hide HubKey.Key, Leads;
    var t0 := Start(map[], schedd, false);
    LeadsNone(t0, logs);
    var t1 := t0.(feed := AwaitReset);
    assert Next(t0, Begin(false)) == t1;
    LeadsStep(t0, [], t0, false, Begin(false), logs);
    assert [] + [Begin(false)] == [Begin(false)];
    var t2 := t1.(s := t1.s.(resetting := true), feed := Replay(map[]));
    assert Next(t1, Recv(Reset(Empty), GOOD)) == t2;
    LeadsStep(t0, [Begin(false)], t1, false, Recv(Reset(Empty), GOOD), logs);
    assert [Begin(false)] + [Recv(Reset(Empty), GOOD)] == [Begin(false), Recv(Reset(Empty), GOOD)];
    SyncNothing(schedd, t2, logs);
    LeadsStep(t0, [Begin(false), Recv(Reset(Empty), GOOD)], t2, false, Recv(Synced(At(0, 0)), NOTHING), logs);
    assert [Begin(false), Recv(Reset(Empty), GOOD)] + [Recv(Synced(At(0, 0)), NOTHING)] ==
           [Begin(false), Recv(Reset(Empty), GOOD), Recv(Synced(At(0, 0)), NOTHING)];
  }

  lemma {:induction false} SyncNothing(schedd: string, t: Sys, logs: Logs)
    requires t == Start(map[], schedd, false).(s := NewSink(schedd, false, Empty).(resetting := true),
                                               feed := Replay(map[]))
    ensures Allowed(t, Recv(Synced(At(0, 0)), NOTHING), logs) &&
            Next(t, Recv(Synced(At(0, 0)), NOTHING)) == LiveAt0(schedd)
    ensures !Exposure(t, Recv(Synced(At(0, 0)), NOTHING), false)
  {
    hide HubKey.Key;
    assert Stale([], {}) == [];
    assert SweepFrom(map[], [], 0, []) == (map[], true);
  }

  function Holding1(schedd: string, a1: Ad): Sys {
    var tx := Some(map[HubKey.Key(schedd, "k") := Some(RowFor(schedd, a1))]);
    LiveAt0(schedd).(s := LiveAt0(schedd).s.(tx := tx, pending := 1, nextCur := At(0, 1)), feed := Live(0, 1),
                     high := map[0 := 1])
  }

  function Holding2(schedd: string, a2: Ad): Sys {
    var tx := Some(map[HubKey.Key(schedd, "k") := Some(RowFor(schedd, a2))]);
    LiveAt0(schedd).(s := LiveAt0(schedd).s.(tx := tx, pending := 2, nextCur := At(0, 2)), feed := Live(0, 2),
                     high := map[0 := 2])
  }

  function SavedDirty(schedd: string, a2: Ad): Sys {
    Sys(World(OneRow(schedd, a2), At(0, 2)), LiveAt0(schedd).s.(failed := true), Live(0, 2), map[0 := 2], {})
  }

  /** From t, in one step that leaves the table exposed or not. */
  ghost predicate Steps(t: Sys, x: bool, a: Action, u: Sys, y: bool, logs: Logs) {
    Allowed(t, a, logs) && !a.Crash? && Next(t, a) == u && Exposure(t, a, x) == y
  }

  lemma {:induction false} FirstChange(schedd: string, a1: Ad, a2: Ad, logs: Logs)
    requires TwoVersions(schedd, a1, a2, logs)
    ensures Steps(LiveAt0(schedd), false, Recv(ChangeAt(logs(0), 0, 0), GOOD), Holding1(schedd, a1), false, logs)
  {
    hide HubKey.Key;
  }

  lemma {:induction false} SecondChange(schedd: string, a1: Ad, a2: Ad, logs: Logs)
    requires TwoVersions(schedd, a1, a2, logs)
    ensures Steps(Holding1(schedd, a1), false, Recv(ChangeAt(logs(0), 0, 1), GOOD), Holding2(schedd, a2), false, logs)
  {
    hide HubKey.Key;
    var hk := HubKey.Key(schedd, "k");
    assert map[hk := Some(RowFor(schedd, a1))][hk := Some(RowFor(schedd, a2))] == map[hk := Some(RowFor(schedd, a2))];
    assert map[0 := 1][0 := 2] == map[0 := 2];
  }

  lemma {:induction false} DirtyFlush(schedd: string, a2: Ad, logs: Logs)
    ensures Steps(Holding2(schedd, a2), false, FlushNow(DIRTY), SavedDirty(schedd, a2), false, logs)
  {
    hide HubKey.Key;
    var hk := HubKey.Key(schedd, "k");
    assert Commit(map[], map[hk := Some(RowFor(schedd, a2))]) == map[hk := RowFor(schedd, a2)];
  }

  lemma {:induction false} DirtyEnd(schedd: string, a2: Ad, logs: Logs)
    ensures Steps(SavedDirty(schedd, a2), false, End, AfterDirty(schedd, a2), false, logs)
  {
    hide HubKey.Key;
  }

  lemma {:induction false} LeadsTo(s0: Sys, acts: seq<Action>, t: Sys, x: bool, a: Action, u: Sys, y: bool, logs: Logs)
    requires Leads(s0, acts, t, x, logs) && Steps(t, x, a, u, y, logs)
    ensures Leads(s0, acts + [a], u, y, logs)
  {
    hide Leads, Next, Allowed, Exposure;
    LeadsStep(s0, acts, t, x, a, logs);
  }

  /** Both changes committed, their cursor's save failing after its rename, the session over. */
  lemma {:induction false} DirtySave(s0: Sys, acts: seq<Action>, schedd: string, a1: Ad, a2: Ad, logs: Logs)
    requires TwoVersions(schedd, a1, a2, logs) && Leads(s0, acts, LiveAt0(schedd), false, logs)
    ensures var c1, c2 := ChangeAt(logs(0), 0, 0), ChangeAt(logs(0), 0, 1);
            Leads(s0, acts + [Recv(c1, GOOD)] + [Recv(c2, GOOD)] + [FlushNow(DIRTY)] + [End], AfterDirty(schedd, a2),
                  false, logs)
  {
    hide Leads, Steps, LiveAt0, Holding1, Holding2, SavedDirty, AfterDirty, RowFor;
    var c1, c2 := Recv(ChangeAt(logs(0), 0, 0), GOOD), Recv(ChangeAt(logs(0), 0, 1), GOOD);
    FirstChange(schedd, a1, a2, logs);
    LeadsTo(s0, acts, LiveAt0(schedd), false, c1, Holding1(schedd, a1), false, logs);
    SecondChange(schedd, a1, a2, logs);
    LeadsTo(s0, acts + [c1], Holding1(schedd, a1), false, c2, Holding2(schedd, a2), false, logs);
    DirtyFlush(schedd, a2, logs);
    LeadsTo(s0, acts + [c1] + [c2], Holding2(schedd, a2), false, FlushNow(DIRTY), SavedDirty(schedd, a2), false, logs);
    DirtyEnd(schedd, a2, logs);
    LeadsTo(s0, acts + [c1] + [c2] + [FlushNow(DIRTY)], SavedDirty(schedd, a2), false, End, AfterDirty(schedd, a2),
            false, logs);
  }

  function Resumed(schedd: string, a2: Ad): Sys {
    AfterDirty(schedd, a2).(s := NewSink(schedd, false, At(0, 0)), feed := Live(0, 0))
  }

  function HoldingOld(schedd: string, a1: Ad, a2: Ad): Sys {
    var tx := Some(map[HubKey.Key(schedd, "k") := Some(RowFor(schedd, a1))]);
    Resumed(schedd, a2).(s := NewSink(schedd, false, At(0, 0)).(tx := tx, pending := 1, nextCur := At(0, 1)),
                         feed := Live(0, 1))
  }

  lemma {:induction false} ResumeOld(schedd: string, a2: Ad, logs: Logs)
    ensures Steps(AfterDirty(schedd, a2), false, Begin(true), Resumed(schedd, a2), false, logs)
  {
    hide HubKey.Key;
  }

  lemma {:induction false} ChangeAgain(schedd: string, a1: Ad, a2: Ad, logs: Logs)
    requires TwoVersions(schedd, a1, a2, logs)
    ensures Steps(Resumed(schedd, a2), false, Recv(ChangeAt(logs(0), 0, 0), GOOD), HoldingOld(schedd, a1, a2), false,
                  logs)
  {
    hide HubKey.Key;
  }

  lemma {:induction false} UnsavedFlush(schedd: string, a1: Ad, a2: Ad, logs: Logs)
    requires RowFor(schedd, a1) != RowFor(schedd, a2)
    ensures Steps(HoldingOld(schedd, a1, a2), false, FlushNow(UNSAVED), Behind(schedd, a1), true, logs)
  {
    hide HubKey.Key;
    var hk := HubKey.Key(schedd, "k");
    assert Commit(map[hk := RowFor(schedd, a2)], map[hk := Some(RowFor(schedd, a1))]) == map[hk := RowFor(schedd, a1)];
    assert OneRow(schedd, a1)[hk] != OneRow(schedd, a2)[hk];
  }

  /** The next session re-delivers change 1 from the sink's own cursor, commits it, and fails to save. */
  lemma {:induction false} Redelivered(s0: Sys, acts: seq<Action>, schedd: string, a1: Ad, a2: Ad, logs: Logs)
    requires TwoVersions(schedd, a1, a2, logs) && Leads(s0, acts, AfterDirty(schedd, a2), false, logs)
    ensures var c1 := Recv(ChangeAt(logs(0), 0, 0), GOOD);
            Leads(s0, acts + [Begin(true)] + [c1] + [FlushNow(UNSAVED)], Behind(schedd, a1), true, logs)
  {
    hide Leads, Steps, AfterDirty, Resumed, HoldingOld, Behind, RowFor;
    var c1 := Recv(ChangeAt(logs(0), 0, 0), GOOD);
    ResumeOld(schedd, a2, logs);
    LeadsTo(s0, acts, AfterDirty(schedd, a2), false, Begin(true), Resumed(schedd, a2), false, logs);
    ChangeAgain(schedd, a1, a2, logs);
    LeadsTo(s0, acts + [Begin(true)], Resumed(schedd, a2), false, c1, HoldingOld(schedd, a1, a2), false, logs);
    UnsavedFlush(schedd, a1, a2, logs);
    LeadsTo(s0, acts + [Begin(true)] + [c1], HoldingOld(schedd, a1, a2), false, FlushNow(UNSAVED), Behind(schedd, a1),
            true, logs);
  }

  /** A run of the sink from a hub that never followed the schedd, valid but that its last crash finds the table
      exposed: a save fails after its rename, the next session commits an older row and fails to save, and
      the crash leaves that row under the newer cursor, which the next session does not repair. */
  lemma {:induction false} DirtySaveLoses(schedd: string, a1: Ad, a2: Ad, logs: Logs) returns (acts: seq<Action>)
    requires TwoVersions(schedd, a1, a2, logs)
    ensures var s0 := Start(map[], schedd, false);
            var t := Run(s0, acts);
            && ValidRun(s0, false, acts, logs) && ExposedAfter(s0, false, acts) && t.w.durable == At(0, 2)
            && var end := Run(t, Restart(0, 2, 2, logs(0)));
               end.feed == Live(0, 2) && !end.s.failed && !Mirrors(IdOf(end.s), end.w.rows, State(logs(0), 2))
  {
    hide HubKey.Key, Run, Mirrors, State, ValidRun, ExposedAfter, Have, WantIn;
    var s0 := Start(map[], schedd, false);
    acts := [Begin(false), Recv(Reset(Empty), GOOD), Recv(Synced(At(0, 0)), NOTHING)];
    ReachLive(schedd, logs);
    DirtySave(s0, acts, schedd, a1, a2, logs);
    var c1, c2 := ChangeAt(logs(0), 0, 0), ChangeAt(logs(0), 0, 1);
    acts := acts + [Recv(c1, GOOD)] + [Recv(c2, GOOD)] + [FlushNow(DIRTY)] + [End];
    assert Leads(s0, acts, AfterDirty(schedd, a2), false, logs);
    Redelivered(s0, acts, schedd, a1, a2, logs);
    acts := acts + [Begin(true)] + [Recv(c1, GOOD)] + [FlushNow(UNSAVED)];
    assert Leads(s0, acts, Behind(schedd, a1), true, logs);
    CrashRepairedIff(Behind(schedd, a1), 2, logs);
    LeftBehind(schedd, a1, a2, logs);
  }

  lemma {:induction false} LeftBehind(schedd: string, a1: Ad, a2: Ad, logs: Logs)
    requires TwoVersions(schedd, a1, a2, logs)
    ensures !NoneLeftBehind(Id(schedd, false), OneRow(schedd, a1), logs(0), 2, 2)
  {
    hide HubKey.Key;
    assert State(logs(0), 2)["k"] == a2;
    assert Have(Id(schedd, false), OneRow(schedd, a1), "k") != WantIn(Id(schedd, false), State(logs(0), 2), "k");
    assert !KeyKept(Id(schedd, false), OneRow(schedd, a1), logs(0), "k", 2, 2);
  }
}
