/** What the archive sink promises over every run. */
module ArchiveTheorems {
  import opened Text
  import opened Store
  import opened ArchiveSpec
  import opened ArchiveRun

  ghost predicate ValidRun(sys: Sys, acts: seq<Action>, src: seq<Rec>)
    decreases |acts|
  {
    acts == [] || (Allowed(sys, acts[0], src) && ValidRun(Next(sys, acts[0]), acts[1..], src))
  }

  function Run(sys: Sys, acts: seq<Action>): Sys
    decreases |acts|
  {
    if acts == [] then sys else Run(Next(sys, acts[0]), acts[1..])
  }

  /** A hub that holds none of this schedd's records yet. */
  function Start(arch: seq<Entry>, schedd: string, budget: nat): Sys {
    Sys(World(arch, |arch|, Empty), NewSink(schedd, budget, Empty), Idle, 0, [], 0)
  }

  lemma {:induction false} StartInv(arch: seq<Entry>, schedd: string, budget: nat, src: seq<Rec>)
    requires (forall e :: e in arch ==> e.schedd != schedd) && Findable(src)
    ensures Inv(Start(arch, schedd, budget), src)
  {
    assert arch[..|arch|] == arch;
    forall id ensures Held(arch, schedd, id) == [] { HeldAbsent(arch, schedd, id); }
  }

  lemma {:induction false} RunInv(sys: Sys, acts: seq<Action>, src: seq<Rec>)
    requires Inv(sys, src) && ValidRun(sys, acts, src)
    ensures Inv(Run(sys, acts), src)
    decreases |acts|
  {
    hide Inv, Allowed, Next;
    if acts != [] {
      StepInv(sys, acts[0], src);
      RunInv(Next(sys, acts[0]), acts[1..], src);
    }
  }

  lemma {:induction false} FlushSchedd(w: World, s: Sink, f: Faults)
    ensures Flush(w, s, f).s.schedd == s.schedd
  {
  }

  lemma {:induction false} TakeSchedd(w: World, s: Sink, rec: Rec, f: Faults)
    ensures TakeRecord(w, s, rec, f).s.schedd == s.schedd
  {
    hide LookUp;
    if rec.id.Some? {
      LookUpFails(w, s, rec.id.value, f.read);
    }
  }

  lemma {:induction false} NextSchedd(sys: Sys, a: Action)
    ensures Next(sys, a).s.schedd == sys.s.schedd
  {
    hide Flush, TakeRecord;
    if a.FlushNow? {
      FlushSchedd(sys.w, sys.s, a.f);
    } else if a.Recv? {
      FlushSchedd(sys.w, sys.s, a.f);
      FlushSchedd(sys.w, NoteCursor(EndCatchup(sys.s), a.c.cursor), a.f);
      if a.c.Upsert? && a.c.rec.Some? {
        TakeSchedd(sys.w, sys.s, a.c.rec.value, a.f);
      }
    }
  }

  lemma {:induction false} KeepsSchedd(sys: Sys, acts: seq<Action>)
    ensures Run(sys, acts).s.schedd == sys.s.schedd
    decreases |acts|
  {
    hide Next;
    if acts != [] {
      NextSchedd(sys, acts[0]);
      KeepsSchedd(Next(sys, acts[0]), acts[1..]);
    }
  }

  /** Through any number of interrupted replays, crashes that lose the unsynced tail, and resumes:
      the hub's records of every identity are a prefix of the source's, and a committed cursor
      covers only records that are synced. */
  lemma {:induction false} AlwaysPrefix(arch: seq<Entry>, schedd: string, budget: nat, acts: seq<Action>, src: seq<Rec>)
    requires (forall e :: e in arch ==> e.schedd != schedd) && Findable(src)
    requires ValidRun(Start(arch, schedd, budget), acts, src)
    ensures var sys := Run(Start(arch, schedd, budget), acts);
            && sys.high <= |src| && sys.w.synced <= |sys.w.arch|
            && Prefixes(sys.w.arch, schedd, src, sys.high)
            && (sys.w.durable.At? ==>
                sys.w.durable.pos <= sys.high && Covers(sys.w.arch[..sys.w.synced], schedd, src, sys.w.durable.pos))
  {
    hide Run, ValidRun, Covers, Prefixes, FeedInv, SyncOk;
    StartInv(arch, schedd, budget, src);
    RunInv(Start(arch, schedd, budget), acts, src);
    KeepsSchedd(Start(arch, schedd, budget), acts);
  }

  /** At Synced the hub holds exactly the source's records of every identity, in the source's order. */
  lemma {:induction false} SyncedEqual(arch: seq<Entry>, schedd: string, budget: nat, acts: seq<Action>, c: Change,
                                       f: Faults, src: seq<Rec>)
    requires (forall e :: e in arch ==> e.schedd != schedd) && Findable(src)
    requires ValidRun(Start(arch, schedd, budget), acts, src) && c.Synced?
    requires var sys := Run(Start(arch, schedd, budget), acts); Allowed(sys, Recv(c, f), src) && !sys.s.failed
    ensures var sys := Run(Start(arch, schedd, budget), acts);
            && sys.feed.Stream? && sys.feed.pos <= |src|
            && Equals(Next(sys, Recv(c, f)).w.arch, schedd, src, sys.feed.pos)
  {
    hide Run, ValidRun, Equals, StoreOk, Next;
    StartInv(arch, schedd, budget, src);
    RunInv(Start(arch, schedd, budget), acts, src);
    KeepsSchedd(Start(arch, schedd, budget), acts);
    SyncedInv(Run(Start(arch, schedd, budget), acts), c, f, src);
  }

  // ---------------------------------------------------------------------------------------
  // While a replay is under way no cursor is stored: whatever ends it, the next session replays anew.

  ghost predicate ReplayUncovered(sys: Sys) {
    && (sys.s.failed ==> sys.s.nextCur == Empty)
    && (sys.feed.Stream? && sys.feed.replay && !sys.s.failed ==>
        sys.s.cur == Empty && sys.w.durable == Empty && sys.s.nextCur == Empty)
  }

  lemma {:induction false} UncoveredStep(sys: Sys, a: Action, src: seq<Rec>)
    requires ReplayUncovered(sys) && Allowed(sys, a, src)
    ensures ReplayUncovered(Next(sys, a))
  {
    hide TakeRecord, SyncData;
    if a.Recv? && a.c.Upsert? && a.c.rec.Some? { TakeCursors(sys.w, sys.s, a.c.rec.value, a.f); }
    if a.Recv? || a.FlushNow? {
      SyncCursors(sys.w, sys.s, a.f.sync);
      if a.Recv? { SyncCursors(sys.w, NoteCursor(EndCatchup(sys.s), a.c.cursor), a.f.sync); }
    }
  }

  lemma {:induction false} TakeCursors(w: World, s: Sink, rec: Rec, f: Faults)
    ensures var r := TakeRecord(w, s, rec, f);
            r.s.cur == s.cur && r.s.nextCur == s.nextCur && r.w.durable == w.durable && r.s.failed == s.failed
  {
    hide LookUp;
    if rec.id.Some? { LookUpFails(w, s, rec.id.value, f.read); }
  }

  lemma {:induction false} SyncCursors(w: World, s: Sink, o: Outcome)
    ensures var r := SyncData(w, s, o);
            r.s.cur == s.cur && r.s.nextCur == s.nextCur && r.w.durable == w.durable && r.s.failed == s.failed
  {
  }

  /** In every state of every run: between a Reset and its Synced neither the sink nor the store has a cursor. */
  lemma {:induction false} ReplayHasNoCursor(sys: Sys, acts: seq<Action>, src: seq<Rec>)
    requires ReplayUncovered(sys) && ValidRun(sys, acts, src)
    ensures ReplayUncovered(Run(sys, acts))
    decreases |acts|
  {
    hide ReplayUncovered, Allowed, Next;
    if acts != [] {
      UncoveredStep(sys, acts[0], src);
      ReplayHasNoCursor(Next(sys, acts[0]), acts[1..], src);
    }
  }

  /** Between sessions the sink holds no dedup state. */
  predicate IdleEmpty(sys: Sys) { sys.feed.Idle? ==> sys.s.remaining == map[] && !sys.s.setLoaded && sys.s.probes == 0 }

  lemma {:induction false} IdleStep(sys: Sys, a: Action, src: seq<Rec>)
    requires IdleEmpty(sys) && Allowed(sys, a, src)
    ensures IdleEmpty(Next(sys, a))
  {
    hide ApplyInner;
  }

  /** In every state of every run. */
  lemma {:induction false} IdleHoldsNothing(sys: Sys, acts: seq<Action>, src: seq<Rec>)
    requires IdleEmpty(sys) && ValidRun(sys, acts, src)
    ensures IdleEmpty(Run(sys, acts))
    decreases |acts|
  {
    hide IdleEmpty, Allowed, Next;
    if acts != [] {
      IdleStep(sys, acts[0], src);
      IdleHoldsNothing(Next(sys, acts[0]), acts[1..], src);
    }
  }

  // ---------------------------------------------------------------------------------------
  // When dedup switches from probes to the loaded set does not matter.

  /** Two systems that differ only in how far their sinks have got with looking counts up. */
  predicate Similar(a: Sys, b: Sys) {
    && a.w == b.w && a.feed == b.feed && a.high == b.high && a.base == b.base && a.from == b.from
    && SimilarSinks(a.s, b.s)
  }

  predicate Reads(a: Action) { a.Recv? ==> a.f.read }

  predicate SimilarSinks(a: Sink, b: Sink) {
    && a.schedd == b.schedd && a.catchup == b.catchup && a.full == b.full && a.nextCur == b.nextCur
    && a.failed == b.failed && a.appended == b.appended && a.cur == b.cur
  }

  lemma {:induction false} SimilarFlush(w: World, a: Sink, b: Sink, f: Faults)
    requires SimilarSinks(a, b)
    ensures var x, y := Flush(w, a, f), Flush(w, b, f); x.w == y.w && x.ok == y.ok && SimilarSinks(x.s, y.s)
  {
    hide SyncData, SaveCursor, SimilarSinks;
    SimilarSync(w, a, b, f.sync);
    var x, y := SyncData(w, a, f.sync), SyncData(w, b, f.sync);
    SimilarSave(x.w, x.s, y.s, f.save);
  }

  lemma {:induction false} SimilarSync(w: World, a: Sink, b: Sink, o: Outcome)
    requires SimilarSinks(a, b)
    ensures var x, y := SyncData(w, a, o), SyncData(w, b, o); x.w == y.w && x.ok == y.ok && SimilarSinks(x.s, y.s)
  {
  }

  lemma {:induction false} SimilarSave(w: World, a: Sink, b: Sink, o: Outcome)
    requires SimilarSinks(a, b)
    ensures var x, y := SaveCursor(w, a, o), SaveCursor(w, b, o); x.w == y.w && x.ok == y.ok && SimilarSinks(x.s, y.s)
  {
  }

  lemma {:induction false} SimilarClear(w: World, a: Sink, b: Sink, o: Outcome)
    requires SimilarSinks(a, b)
    ensures var x, y := ClearCursor(w, a, o), ClearCursor(w, b, o); x.w == y.w && x.ok == y.ok && SimilarSinks(x.s, y.s)
  {
  }

  lemma {:induction false} SimilarTake(a: Sys, b: Sys, f: Faults, src: seq<Rec>)
    requires Inv(a, src) && Inv(b, src) && Similar(a, b) && !a.s.failed && a.feed.Stream? && a.feed.pos < |src| &&
             f.read
    ensures var x, y := TakeRecord(a.w, a.s, src[a.feed.pos], f), TakeRecord(b.w, b.s, src[a.feed.pos], f);
            x.w == y.w && x.ok == y.ok && SimilarSinks(x.s, y.s)
  {
    hide StoreOk, SrcOf, Held, LookUp, FreshIds, Covers, Equals, AllRemaining, AllCounts;
    StoreClear(a.w, a.s, a.high, src);
    if a.s.catchup {
      DedupByCount(a.w, a.s, a.base, src, a.from, a.feed.pos);
      DedupByCount(b.w, b.s, b.base, src, b.from, a.feed.pos);
    }
  }

  lemma {:induction false} SimilarRecv(a: Sys, b: Sys, c: Change, f: Faults, src: seq<Rec>)
    requires Inv(a, src) && Inv(b, src) && Similar(a, b) && !a.s.failed && Delivers(a, c, src) && f.read
    ensures Similar(Next(a, Recv(c, f)), Next(b, Recv(c, f)))
  {
    hide Inv, Flush, TakeRecord, ClearCursor;
    match c {
      case Upsert(_, _) => SimilarTake(a, b, f, src);
      case Reset(_) =>
        SimilarFlush(a.w, a.s, b.s, f);
        var x, y := Flush(a.w, a.s, f), Flush(b.w, b.s, f);
        SimilarClear(x.w, x.s, y.s, f.clear);
      case Synced(cur) => SimilarFlush(a.w, NoteCursor(EndCatchup(a.s), cur), NoteCursor(EndCatchup(b.s), cur), f);
      case Other(_) =>
    }
  }

  lemma {:induction false} SimilarStep(a: Sys, b: Sys, act: Action, src: seq<Rec>)
    requires Inv(a, src) && Inv(b, src) && Similar(a, b) && Allowed(a, act, src) && Reads(act)
    ensures Similar(Next(a, act), Next(b, act)) && Allowed(b, act, src)
  {
    hide Inv, Flush, ApplyInner;
    match act {
      case Recv(c, f) => if !a.s.failed { SimilarRecv(a, b, c, f, src); }
      case FlushNow(f) => SimilarFlush(a.w, a.s, b.s, f);
      case _ =>
    }
  }

  /** Whatever the probe budgets, the same run gives the same archive and cursors. */
  lemma {:induction false} BudgetDoesNotMatter(a: Sys, b: Sys, acts: seq<Action>, src: seq<Rec>)
    requires Inv(a, src) && Inv(b, src) && Similar(a, b) && ValidRun(a, acts, src)
    requires forall i :: 0 <= i < |acts| ==> Reads(acts[i])
    ensures ValidRun(b, acts, src) && Run(a, acts).w == Run(b, acts).w && Similar(Run(a, acts), Run(b, acts))
    decreases |acts|
  {
    hide Inv, Allowed, Next;
    if acts != [] {
      SimilarStep(a, b, acts[0], src);
      StepInv(a, acts[0], src);
      StepInv(b, acts[0], src);
      BudgetDoesNotMatter(Next(a, acts[0]), Next(b, acts[0]), acts[1..], src);
    }
  }
}
