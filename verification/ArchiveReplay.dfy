/** One undisturbed catch-up, record by record, whatever the exact query finds: what the hub ends with, and
    exactly when that is what the source holds. */
module ArchiveReplay {
  import opened Text
  import opened Store
  import opened ArchiveSpec
  import opened ArchiveRun
  import opened ArchiveTheorems

  const GOOD := Faults(true, Succeeded, Succeeded, Succeeded, true)

  /** The records from position from up to n, taken one after the other with nothing failing. */
  function CatchUp(w: World, s: Sink, src: seq<Rec>, from: nat, n: nat): Done
    requires from <= n <= |src|
    decreases n - from
  {
    if from == n then Done(w, s, true)
    else
      var r := TakeRecord(w, s, src[from], GOOD);
      CatchUp(r.w, r.s, src, from + 1, n)
  }

  // ---------------------------------------------------------------------------------------
  // What a catch-up has met, and which identities it probes.

  /** The source's records of one identity from position from up to pos. */
  function MetOf(src: seq<Rec>, from: nat, pos: nat, id: Id): seq<Rec>
    requires from <= pos <= |src|
  {
    if from == pos then []
    else MetOf(src, from, pos - 1, id) + if src[pos - 1].id == Some(id) then [src[pos - 1]] else []
  }

  function IdSet(rec: Rec): set<Id> { if rec.id.Some? then {rec.id.value} else {} }

  /** The identities of the records from position from up to pos. */
  function Ids(src: seq<Rec>, from: nat, pos: nat): set<Id>
    requires from <= pos <= |src|
  {
    if from == pos then {} else Ids(src, from, pos - 1) + IdSet(src[pos - 1])
  }

  /** The identities whose count came from a probe: in a Reset replay the first budget of them, in a resume
      all. */
  function Probed(src: seq<Rec>, from: nat, pos: nat, full: bool, budget: nat): set<Id>
    requires from <= pos <= |src|
  {
    if from == pos then {}
    else if full && |Ids(src, from, pos - 1)| >= budget then Probed(src, from, pos - 1, full, budget)
    else Probed(src, from, pos - 1, full, budget) + IdSet(src[pos - 1])
  }

  /** The count the catch-up begins from. */
  function Known(base: seq<Entry>, schedd: string, id: Id, probed: set<Id>): nat {
    if id in probed then CountHeld(base, schedd, id) else CountAll(base, schedd, id)
  }

  /** What the hub has of an identity: what it had, and of what it met all but the first c. */
  function Grown(had: seq<Rec>, met: seq<Rec>, c: nat): seq<Rec> { had + if |met| <= c then [] else met[c..] }

  lemma {:induction false} MetAll(src: seq<Rec>, p: nat, n: nat, id: Id)
    requires p <= n <= |src|
    ensures SrcOf(src, n, id) == SrcOf(src, p, id) + MetOf(src, p, n, id)
    decreases n - p
  {
    if p < n {
      MetAll(src, p, n - 1, id);
    }
  }

  lemma {:induction false} NotMet(src: seq<Rec>, from: nat, pos: nat, id: Id)
    requires from <= pos <= |src| && id !in Ids(src, from, pos)
    ensures MetOf(src, from, pos, id) == []
  {
    if from < pos {
      NotMet(src, from, pos - 1, id);
    }
  }

  lemma {:induction false} Fewer(a: set<Id>, b: set<Id>)
    requires a <= b
    ensures |a| <= |b|
  {
    assert b == a + (b - a);
  }

  lemma {:induction false} ProbedMet(src: seq<Rec>, from: nat, pos: nat, full: bool, budget: nat)
    requires from <= pos <= |src|
    ensures Probed(src, from, pos, full, budget) <= Ids(src, from, pos)
    ensures !full || |Ids(src, from, pos)| < budget ==> Probed(src, from, pos, full, budget) == Ids(src, from, pos)
  {
    if from < pos {
      ProbedMet(src, from, pos - 1, full, budget);
      Fewer(Ids(src, from, pos - 1), Ids(src, from, pos));
    }
  }

  // ---------------------------------------------------------------------------------------
  // The state of a catch-up.

  /** One identity: the hub's records of it, and what is left to match. */
  predicate IdOk(w: World, s: Sink, base: seq<Entry>, met: seq<Rec>, known: nat, seen: bool, id: Id) {
    && Held(w.arch, s.schedd, id) == Grown(Held(base, s.schedd, id), met, known)
    && (if id in s.remaining then s.remaining[id] == Max(0, known - |met|)
        else !seen && (s.setLoaded ==> CountAll(base, s.schedd, id) == 0))
  }

  /** How the counts came to be known. */
  predicate CountersOk(s: Sink, ids: set<Id>) {
    if s.setLoaded then s.full && |ids| >= s.budget else s.remaining.Keys == ids && s.probes == |ids|
  }

  predicate IdAt(w: World, s: Sink, base: seq<Entry>, src: seq<Rec>, from: nat, pos: nat, id: Id)
    requires from <= pos <= |src|
  {
    IdOk(w, s, base, MetOf(src, from, pos, id),
         Known(base, s.schedd, id, Probed(src, from, pos, s.full, s.budget)), id in Ids(src, from, pos), id)
  }

  ghost predicate CatchingUp(w: World, s: Sink, base: seq<Entry>, src: seq<Rec>, from: nat, pos: nat)
    requires from <= pos <= |src|
  {
    && s.catchup && CountersOk(s, Ids(src, from, pos))
    && forall id :: IdAt(w, s, base, src, from, pos, id)
  }

  lemma {:induction false} GrownStep(had: seq<Rec>, met: seq<Rec>, rec: Rec, c: nat)
    ensures Grown(had, met + [rec], c) == Grown(had, met, c) + if |met| < c then [] else [rec]
  {
  }

  /** The count the look-up of the next record's identity finds. */
  function Found(w: World, s: Sink, id: Id): nat {
    if id in s.remaining then s.remaining[id]
    else if s.setLoaded then 0
    else if s.full && s.probes >= s.budget then CountAll(w.arch, s.schedd, id)
    else CountHeld(w.arch, s.schedd, id)
  }

  lemma {:induction false} LookUpFinds(w: World, s: Sink, id: Id)
    ensures var (s1, held) := LookUp(w, s, id, true);
            && held == Some(Found(w, s, id) > 0)
            && s1 == s.(probes := s1.probes, remaining := s1.remaining, setLoaded := s1.setLoaded)
            && s1.remaining == (if s1.setLoaded && !s.setLoaded then Load(s.remaining, w.arch, s.schedd)
                                else s.remaining)[id := Max(0, Found(w, s, id) - 1)]
            && s1.setLoaded == (s.setLoaded || (id !in s.remaining && s.full && s.probes >= s.budget))
            && s1.probes == s.probes + if id in s.remaining || s1.setLoaded then 0 else 1
  {
    hide Held, Visible, HeldIds;
    if id !in s.remaining && id !in HeldIds(w.arch, s.schedd) {
      HeldAbsent(w.arch, s.schedd, id);
    }
  }

  /** The next record's identity: what is found is what is left to match, whichever way it is known. */
  lemma {:induction false} FoundOk(w: World, s: Sink, base: seq<Entry>, src: seq<Rec>, from: nat, pos: nat)
    requires from <= pos < |src| && src[pos].id.Some? && CatchingUp(w, s, base, src, from, pos)
    ensures var id, p := src[pos].id.value, pos + 1;
            Found(w, s, id) == Max(0, Known(base, s.schedd, id, Probed(src, from, p, s.full, s.budget)) -
                                      |MetOf(src, from, pos, id)|)
  {
    hide Held, Visible, Probed, Ids, MetOf;
    var id := src[pos].id.value;
    assert IdAt(w, s, base, src, from, pos, id);
    ProbedMet(src, from, pos, s.full, s.budget);
    ProbedStep(src, from, pos, s.full, s.budget);
    if id !in Ids(src, from, pos) { NotMet(src, from, pos, id); }
    if id !in s.remaining {
      assert Held(w.arch, s.schedd, id) == Held(base, s.schedd, id);
    }
  }

  /** A step probes the next record's identity unless the budget is spent. */
  lemma {:induction false} ProbedStep(src: seq<Rec>, from: nat, pos: nat, full: bool, budget: nat)
    requires from <= pos < |src|
    ensures Ids(src, from, pos + 1) == Ids(src, from, pos) + IdSet(src[pos])
    ensures Probed(src, from, pos + 1, full, budget) ==
            Probed(src, from, pos, full, budget) +
            if full && |Ids(src, from, pos)| >= budget then {} else IdSet(src[pos])
  {
  }

  lemma {:induction false} MetStep(src: seq<Rec>, from: nat, pos: nat, id: Id)
    requires from <= pos < |src|
    ensures MetOf(src, from, pos + 1, id) ==
            MetOf(src, from, pos, id) + if src[pos].id == Some(id) then [src[pos]] else []
  {
  }

  /** The look-up leaves every other identity's count what it was, or knows it from the loaded set. */
  lemma {:induction false} OtherCount(w: World, s: Sink, base: seq<Entry>, src: seq<Rec>, from: nat, pos: nat, i: Id)
    requires from <= pos < |src| && src[pos].id.Some? && i != src[pos].id.value
    requires CatchingUp(w, s, base, src, from, pos)
    ensures IdAt(w, LookUp(w, s, src[pos].id.value, true).0, base, src, from, pos + 1, i)
  {
    hide Held, Visible, Probed, Ids, MetOf, LookUp, Grown, HeldIds, CountersOk;
    var id := src[pos].id.value;
    LookUpFinds(w, s, id);
    assert IdAt(w, s, base, src, from, pos, i);
    ProbedMet(src, from, pos, s.full, s.budget);
    ProbedStep(src, from, pos, s.full, s.budget);
    MetStep(src, from, pos, i);
    var s1, p := LookUp(w, s, id, true).0, pos + 1;
    assert Known(base, s.schedd, i, Probed(src, from, p, s.full, s.budget)) ==
           Known(base, s.schedd, i, Probed(src, from, pos, s.full, s.budget));
    assert MetOf(src, from, p, i) == MetOf(src, from, pos, i);
    if i !in s.remaining {
      NotMet(src, from, pos, i);
      GrownNone(Held(base, s.schedd, i), Known(base, s.schedd, i, Probed(src, from, pos, s.full, s.budget)));
      if i !in HeldIds(w.arch, s.schedd) { HeldAbsent(w.arch, s.schedd, i); }
    }
  }

  lemma {:induction false} GrownNone(had: seq<Rec>, c: nat)
    ensures Grown(had, [], c) == had
  {
  }

  /** And leaves one match less of the record's own. */
  lemma {:induction false} OwnCount(w: World, s: Sink, base: seq<Entry>, src: seq<Rec>, from: nat, pos: nat)
    requires from <= pos < |src| && src[pos].id.Some? && CatchingUp(w, s, base, src, from, pos)
    ensures var id, p := src[pos].id.value, pos + 1;
            var r := TakeRecord(w, s, src[pos], GOOD);
            && r.ok && IdAt(r.w, r.s, base, src, from, p, id)
  {
    hide Held, Visible, Probed, Ids, LookUp, MetOf, Grown, CountersOk;
    var id, p := src[pos].id.value, pos + 1;
    LookUpFinds(w, s, id);
    FoundOk(w, s, base, src, from, pos);
    assert IdAt(w, s, base, src, from, pos, id);
    ProbedStep(src, from, pos, s.full, s.budget);
    MetStep(src, from, pos, id);
    KnownKept(w, s, base, src, from, pos);
    var known := Known(base, s.schedd, id, Probed(src, from, p, s.full, s.budget));
    GrownStep(Held(base, s.schedd, id), MetOf(src, from, pos, id), src[pos], known);
    AppendCounts(w, LookUp(w, s, id, true).0, src[pos], id);
  }

  /** What the hub has of the record's identity, by the count known after the look-up. */
  lemma {:induction false} KnownKept(w: World, s: Sink, base: seq<Entry>, src: seq<Rec>, from: nat, pos: nat)
    requires from <= pos < |src| && src[pos].id.Some? && CatchingUp(w, s, base, src, from, pos)
    ensures var id, p := src[pos].id.value, pos + 1;
            Held(w.arch, s.schedd, id) ==
            Grown(Held(base, s.schedd, id), MetOf(src, from, pos, id),
                  Known(base, s.schedd, id, Probed(src, from, p, s.full, s.budget)))
  {
    hide Held, Visible, Probed, Ids, MetOf;
    var id := src[pos].id.value;
    assert IdAt(w, s, base, src, from, pos, id);
    ProbedMet(src, from, pos, s.full, s.budget);
    ProbedStep(src, from, pos, s.full, s.budget);
    if id !in Ids(src, from, pos) { NotMet(src, from, pos, id); }
  }

  lemma {:induction false} CountersStep(w: World, s: Sink, base: seq<Entry>, src: seq<Rec>, from: nat, pos: nat)
    requires from <= pos < |src| && src[pos].id.Some? && CatchingUp(w, s, base, src, from, pos)
    ensures CountersOk(LookUp(w, s, src[pos].id.value, true).0, Ids(src, from, pos + 1))
  {
    hide Held, Visible, Probed, Ids, MetOf, LookUp, Load, IdOk;
    LookUpFinds(w, s, src[pos].id.value);
    ProbedStep(src, from, pos, s.full, s.budget);
  }

  lemma {:induction false} SameCounters(w: World, s: Sink, w1: World, s1: Sink, base: seq<Entry>, src: seq<Rec>,
                                        from: nat, pos: nat, i: Id)
    requires from <= pos <= |src| && s1 == s.(appended := s1.appended)
    ensures CountersOk(s, Ids(src, from, pos)) ==> CountersOk(s1, Ids(src, from, pos))
    ensures IdAt(w, s, base, src, from, pos, i) && Held(w1.arch, s.schedd, i) == Held(w.arch, s.schedd, i) ==>
              IdAt(w1, s1, base, src, from, pos, i)
  {
    hide Held, Visible, Probed, Ids, MetOf, Grown;
  }

  lemma {:induction false} NoIdentity(w: World, s: Sink, base: seq<Entry>, src: seq<Rec>, from: nat, pos: nat)
    requires from <= pos < |src| && src[pos].id.None? && CatchingUp(w, s, base, src, from, pos)
    ensures CatchingUp(w, s, base, src, from, pos + 1)
  {
    hide Held, Visible, Probed, Ids, MetOf, Grown, CountersOk, IdOk;
    var p := pos + 1;
    ProbedStep(src, from, pos, s.full, s.budget);
    assert Ids(src, from, p) == Ids(src, from, pos);
    assert Probed(src, from, p, s.full, s.budget) == Probed(src, from, pos, s.full, s.budget);
    forall i ensures IdAt(w, s, base, src, from, p, i) {
      assert IdAt(w, s, base, src, from, pos, i);
      MetStep(src, from, pos, i);
      assert MetOf(src, from, p, i) == MetOf(src, from, pos, i);
    }
  }

  /** One record of an undisturbed catch-up. */
  lemma {:induction false} CatchingStep(w: World, s: Sink, base: seq<Entry>, src: seq<Rec>, from: nat, pos: nat)
    requires from <= pos < |src| && CatchingUp(w, s, base, src, from, pos)
    ensures var r := TakeRecord(w, s, src[pos], GOOD);
            && r.ok && CatchingUp(r.w, r.s, base, src, from, pos + 1)
            && r.s.schedd == s.schedd && r.s.full == s.full && r.s.budget == s.budget
  {
    hide Held, Visible, Probed, Ids, LookUp, MetOf, Grown, CountersOk, Found, Known, Load, IdAt;
    var rec, p := src[pos], pos + 1;
    var r := TakeRecord(w, s, rec, GOOD);
    var s1 := if rec.id.Some? then LookUp(w, s, rec.id.value, true).0 else s;
    if rec.id.Some? {
      LookUpFinds(w, s, rec.id.value);
      OwnCount(w, s, base, src, from, pos);
      CountersStep(w, s, base, src, from, pos);
    } else {
      NoIdentity(w, s, base, src, from, pos);
    }
    forall i ensures IdAt(r.w, r.s, base, src, from, p, i) {
      HeldSnoc(w.arch, Entry(s.schedd, rec), s.schedd, i);
      SameCounters(w, s1, r.w, r.s, base, src, from, p, i);
      if rec.id.Some? && rec.id.value != i { OtherCount(w, s, base, src, from, pos, i); }
    }
    SameCounters(w, s1, r.w, r.s, base, src, from, p, []);
  }

  // ---------------------------------------------------------------------------------------
  // What a catch-up ends with.

  lemma {:induction false} CatchUpKeeps(w: World, s: Sink, base: seq<Entry>, src: seq<Rec>, from: nat, pos: nat, n: nat)
    requires from <= pos <= n <= |src| && CatchingUp(w, s, base, src, from, pos)
    ensures var r := CatchUp(w, s, src, pos, n);
            && CatchingUp(r.w, r.s, base, src, from, n)
            && r.s.schedd == s.schedd && r.s.full == s.full && r.s.budget == s.budget
    decreases n - pos
  {
    hide CatchingUp, TakeRecord;
    if pos < n {
      CatchingStep(w, s, base, src, from, pos);
      var r := TakeRecord(w, s, src[pos], GOOD);
      CatchUpKeeps(r.w, r.s, base, src, from, pos + 1, n);
    }
  }

  /** A sink at the start of a catch-up. */
  predicate Fresh(s: Sink) { s.catchup && s.remaining == map[] && !s.setLoaded && s.probes == 0 && !s.failed }

  /** The hub's records of an identity after a catch-up from p to n: what it had, and of what it met all but as
      many as the probe or the loaded set reported. */
  lemma {:induction false} CatchUpExact(w: World, s: Sink, src: seq<Rec>, p: nat, n: nat, id: Id)
    requires p <= n <= |src| && Fresh(s)
    ensures Held(CatchUp(w, s, src, p, n).w.arch, s.schedd, id) ==
            Grown(Held(w.arch, s.schedd, id), MetOf(src, p, n, id),
                  Known(w.arch, s.schedd, id, Probed(src, p, n, s.full, s.budget)))
  {
    hide Held, Visible, CatchUp;
    forall i ensures IdAt(w, s, w.arch, src, p, p, i) {
      GrownNone(Held(w.arch, s.schedd, i), Known(w.arch, s.schedd, i, {}));
    }
    CatchUpKeeps(w, s, w.arch, src, p, p, n);
    var r := CatchUp(w, s, src, p, n);
    assert IdAt(r.w, r.s, w.arch, src, p, n, id);
  }

  /** The stream's calls for the records from position from up to n. */
  function Records(src: seq<Rec>, from: nat, n: nat, replay: bool): seq<Action>
    requires from <= n <= |src|
    decreases n - from
  {
    if from == n then []
    else [Recv(Upsert(Some(src[from]), if replay then Empty else At(from + 1)), GOOD)] +
         Records(src, from + 1, n, replay)
  }

  lemma {:induction false} TakeCursor(w: World, s: Sink, rec: Rec, c: Cursor)
    ensures var r := TakeRecord(w, s, rec, GOOD);
            && r.ok && r.s.failed == s.failed && r.s.catchup == s.catchup
            && TakeRecord(w, s.(nextCur := c), rec, GOOD) == r.(s := r.s.(nextCur := c))
  {
    hide LookUp, Found, Load;
    if rec.id.Some? {
      LookUpFinds(w, s, rec.id.value);
      LookUpCursor(w, s, rec.id.value, c);
    }
  }

  lemma {:induction false} ConsumeCursor(s: Sink, id: Id, n: nat, c: Cursor)
    ensures var r := Consume(s, id, n); Consume(s.(nextCur := c), id, n) == (r.0.(nextCur := c), r.1)
  {
  }

  lemma {:induction false} LookUpCursor(w: World, s: Sink, id: Id, c: Cursor)
    ensures var r := LookUp(w, s, id, true);
            LookUp(w, s.(nextCur := c), id, true) == (r.0.(nextCur := c), r.1)
  {
    hide Load, CountHeld, Consume;
    if id in s.remaining || s.setLoaded {
      ConsumeCursor(s, id, if id in s.remaining then s.remaining[id] else 0, c);
    } else if s.full && s.probes >= s.budget {
      var s1 := s.(remaining := Load(s.remaining, w.arch, s.schedd), setLoaded := true);
      ConsumeCursor(s1, id, if id in s1.remaining then s1.remaining[id] else 0, c);
    } else {
      ConsumeCursor(s.(probes := s.probes + 1), id, CountHeld(w.arch, s.schedd, id), c);
    }
  }

  lemma {:induction false} CatchUpCursor(w: World, s: Sink, src: seq<Rec>, from: nat, n: nat, c: Cursor)
    requires from <= n <= |src|
    ensures CatchUp(w, s.(nextCur := c), src, from, n).w == CatchUp(w, s, src, from, n).w
    decreases n - from
  {
    hide TakeRecord;
    if from < n {
      TakeCursor(w, s, src[from], c);
      var r := TakeRecord(w, s, src[from], GOOD);
      CatchUpCursor(r.w, r.s, src, from + 1, n, c);
    }
  }

  /** The cursors a stream carries do not touch what it appends. */
  lemma {:induction false} RunIsCatchUp(sys: Sys, src: seq<Rec>, from: nat, n: nat, replay: bool)
    requires from <= n <= |src| && !sys.s.failed && sys.feed.Stream?
    ensures Run(sys, Records(src, from, n, replay)).w == CatchUp(sys.w, sys.s, src, from, n).w
    decreases n - from
  {
    hide TakeRecord;
    if from < n {
      var a := Recv(Upsert(Some(src[from]), if replay then Empty else At(from + 1)), GOOD);
      var r, sys1 := TakeRecord(sys.w, sys.s, src[from], GOOD), Next(sys, a);
      TakeCursor(sys.w, sys.s, src[from], a.c.cursor);
      RunIsCatchUp(sys1, src, from + 1, n, replay);
      assert sys1.s == NoteCursor(r.s, a.c.cursor) && sys1.w == r.w;
      CatchUpCursor(r.w, r.s, src, from + 1, n, a.c.cursor);
      assert Records(src, from, n, replay)[1..] == Records(src, from + 1, n, replay);
    }
  }

  // ---------------------------------------------------------------------------------------
  // A resume.

  /** The hub had as many of the identity as the source has before the cursor and the probe sees after it. */
  predicate Rejoins(base: seq<Entry>, schedd: string, src: seq<Rec>, p: nat, n: nat, id: Id)
    requires p <= n <= |src|
  {
    var met, seen := |MetOf(src, p, n, id)|, CountHeld(base, schedd, id);
    CountAll(base, schedd, id) == |SrcOf(src, p, id)| + if met <= seen then met else seen
  }

  /** A resume from a stored cursor p catches up to n. The hub ends with exactly the source's records of every
      identity if and only if each rejoins. */
  lemma {:induction false} ResumeExact(sys: Sys, src: seq<Rec>, p: nat, n: nat)
    requires p <= n <= |src| && sys.feed == Idle && sys.s.cur == At(p)
    requires Covers(sys.w.arch, sys.s.schedd, src, p) && Prefixes(sys.w.arch, sys.s.schedd, src, n)
    ensures var end := Run(sys, [Begin(true)] + Records(src, p, n, false)).w.arch;
            Equals(end, sys.s.schedd, src, n) <==> forall id :: Rejoins(sys.w.arch, sys.s.schedd, src, p, n, id)
  {
    hide Held, SrcOf, MetOf, Grown, Visible, CatchUp, Records, Probed;
    var sys1, recs, base, schedd := Next(sys, Begin(true)), Records(src, p, n, false), sys.w.arch, sys.s.schedd;
    assert ([Begin(true)] + recs)[1..] == recs;
    RunIsCatchUp(sys1, src, p, n, false);
    var end := CatchUp(sys.w, sys1.s, src, p, n).w.arch;
    forall id ensures Held(end, schedd, id) == SrcOf(src, n, id) <==> Rejoins(base, schedd, src, p, n, id) {
      CatchUpExact(sys.w, sys1.s, src, p, n, id);
      MetAll(src, p, n, id);
      assert Held(base, schedd, id) <= SrcOf(src, n, id) && |SrcOf(src, p, id)| <= |Held(base, schedd, id)|;
      ProbedMet(src, p, n, false, sys.s.budget);
      VisibleAll(Held(base, schedd, id));
      if id !in Ids(src, p, n) { NotMet(src, p, n, id); }
      GrownIs(Held(base, schedd, id), SrcOf(src, p, id), MetOf(src, p, n, id), CountHeld(base, schedd, id));
    }
  }

  lemma {:induction false} GrownIs(had: seq<Rec>, before: seq<Rec>, met: seq<Rec>, seen: nat)
    requires had <= before + met && |before| <= |had| && seen <= |had|
    ensures Grown(had, met, seen) == before + met <==> |had| == |before| + if |met| <= seen then |met| else seen
    ensures met == [] ==> forall c :: Grown(had, met, c) == had
  {
    if |had| == |before| + seen && seen < |met| {
      assert had == before + met[..seen];
      assert met[..seen] + met[seen..] == met;
    }
    assert |before + met| == |before| + |met|;
  }

  /** Where the probe sees all the hub holds: the identity does not occur before the cursor, or was already held
      in full. */
  lemma {:induction false} RejoinsClear(base: seq<Entry>, schedd: string, src: seq<Rec>, p: nat, n: nat, id: Id)
    requires p <= n <= |src| && CountHeld(base, schedd, id) == CountAll(base, schedd, id)
    requires Covers(base, schedd, src, p) && Prefixes(base, schedd, src, n)
    ensures Rejoins(base, schedd, src, p, n, id) <==>
            SrcOf(src, p, id) == [] || Held(base, schedd, id) == SrcOf(src, n, id)
  {
    hide SrcOf, MetOf, Held, Visible;
    MetAll(src, p, n, id);
    assert Held(base, schedd, id) <= SrcOf(src, n, id) && |SrcOf(src, p, id)| <= |Held(base, schedd, id)|;
  }

  /** The failing family's smallest member: the hub holds the first of two records of one identity,
      the cursor covers it, and the resume drops the second as already held. */
  lemma {:induction false} ResumeDropsRepeat(schedd: string, id: Id)
    ensures var first, second := Rec(Some(id), true, "checkpoint 1"), Rec(Some(id), true, "checkpoint 2");
            var src := [first, second];
            var w := World([Entry(schedd, first)], 1, At(1));
            CatchUp(w, NewSink(schedd, 256, At(1)), src, 1, 2).w.arch == w.arch
  {
    var first, second := Rec(Some(id), true, "checkpoint 1"), Rec(Some(id), true, "checkpoint 2");
    var src := [first, second];
    var w := World([Entry(schedd, first)], 1, At(1));
    var s := NewSink(schedd, 256, At(1));
    OneHeld(schedd, first);
    var r := TakeRecord(w, s, second, GOOD);
    assert r.w == w;
    assert CatchUp(r.w, r.s, src, 2, 2) == Done(r.w, r.s, true);
  }

  lemma {:induction false} OneHeld(schedd: string, rec: Rec)
    requires rec.id.Some?
    ensures Held([Entry(schedd, rec)], schedd, rec.id.value) == [rec]
    ensures CountHeld([Entry(schedd, rec)], schedd, rec.id.value) == if rec.visible then 1 else 0
  {
    var id := rec.id.value;
    assert [Entry(schedd, rec)] == [] + [Entry(schedd, rec)];
    HeldSnoc([], Entry(schedd, rec), schedd, id);
    assert Held([], schedd, id) == [] && Visible([]) == [];
    assert [rec][..0] == [];
  }

  // ---------------------------------------------------------------------------------------
  // A Reset replay.

  /** Every record the hub has of the identity would be found by the probe. */
  predicate AllFound(base: seq<Entry>, schedd: string, id: Id) {
    forall i :: 0 <= i < |Held(base, schedd, id)| ==> Held(base, schedd, id)[i].visible
  }

  function Replay(src: seq<Rec>, n: nat): seq<Action>
    requires n <= |src|
  {
    [Recv(Reset(Empty), GOOD)] + Records(src, 0, n, true)
  }

  lemma {:induction false} ReplayEnds(sys: Sys, src: seq<Rec>, n: nat, id: Id)
    requires n <= |src| && !sys.s.failed && Prefixes(sys.w.arch, sys.s.schedd, src, n)
    ensures Held(Run(sys, Replay(src, n)).w.arch, sys.s.schedd, id) ==
            Grown(Held(sys.w.arch, sys.s.schedd, id), SrcOf(src, n, id),
                  Known(sys.w.arch, sys.s.schedd, id, Probed(src, 0, n, true, sys.s.budget)))
  {
    hide Held, MetOf, Grown, Visible, CatchUp, Records, Probed, Known;
    var sys1, recs := Next(sys, Recv(Reset(Empty), GOOD)), Records(src, 0, n, true);
    assert Replay(src, n)[1..] == recs;
    RunIsCatchUp(sys1, src, 0, n, true);
    CatchUpExact(sys1.w, sys1.s, src, 0, n, id);
    MetAll(src, 0, n, id);
    assert SrcOf(src, 0, id) == [] && [] + MetOf(src, 0, n, id) == MetOf(src, 0, n, id);
  }

  /** A whole Reset replay ends with exactly the source's records if and only if, of every identity it looked up
      by probe, the probe finds all the hub had. */
  lemma {:induction false} ResetReplayExact(sys: Sys, src: seq<Rec>, n: nat)
    requires n <= |src| && !sys.s.failed && Prefixes(sys.w.arch, sys.s.schedd, src, n)
    ensures Equals(Run(sys, Replay(src, n)).w.arch, sys.s.schedd, src, n) <==>
            forall id :: id in Probed(src, 0, n, true, sys.s.budget) ==> AllFound(sys.w.arch, sys.s.schedd, id)
  {
    hide Held, SrcOf, Grown, Visible, Replay, Probed;
    var end, base, schedd := Run(sys, Replay(src, n)).w.arch, sys.w.arch, sys.s.schedd;
    var probed := Probed(src, 0, n, true, sys.s.budget);
    forall id ensures Held(end, schedd, id) == SrcOf(src, n, id) <==> (id in probed ==> AllFound(base, schedd, id)) {
      ReplayEnds(sys, src, n, id);
      FoundIff(base, schedd, id);
      assert Held(base, schedd, id) <= SrcOf(src, n, id);
      GrownWhole(Held(base, schedd, id), SrcOf(src, n, id), Known(base, schedd, id, probed));
    }
  }

  lemma {:induction false} GrownWhole(had: seq<Rec>, all: seq<Rec>, c: nat)
    requires had <= all && c <= |had|
    ensures Grown(had, all, c) == all <==> c == |had|
    ensures |Grown(had, all, c)| == |had| + |all| - c
  {
  }

  /** The two archives hold the same records of every identity of the schedd. */
  ghost predicate SameRecords(x: seq<Entry>, y: seq<Entry>, schedd: string) {
    forall id :: Held(x, schedd, id) == Held(y, schedd, id)
  }

  /** An identity only one of the two probes has all its records found. */
  predicate NoMatterWhich(base: seq<Entry>, schedd: string, a: set<Id>, b: set<Id>, id: Id) {
    (id in a) != (id in b) ==> AllFound(base, schedd, id)
  }

  /** Two probe budgets end the replay with the same records if and only if what only one of them probes is all
      found. */
  lemma {:induction false} BudgetsAgreeIff(a: Sys, b: Sys, src: seq<Rec>, n: nat)
    requires n <= |src| && !a.s.failed && !b.s.failed && a.w == b.w && a.s.schedd == b.s.schedd
    requires Prefixes(a.w.arch, a.s.schedd, src, n)
    ensures var pa, pb := Probed(src, 0, n, true, a.s.budget), Probed(src, 0, n, true, b.s.budget);
            SameRecords(Run(a, Replay(src, n)).w.arch, Run(b, Replay(src, n)).w.arch, a.s.schedd) <==>
            forall id :: NoMatterWhich(a.w.arch, a.s.schedd, pa, pb, id)
  {
    hide Held, SrcOf, Grown, Visible, Replay, Probed, AllFound;
    var base, schedd := a.w.arch, a.s.schedd;
    var x, y := Run(a, Replay(src, n)).w.arch, Run(b, Replay(src, n)).w.arch;
    var pa, pb := Probed(src, 0, n, true, a.s.budget), Probed(src, 0, n, true, b.s.budget);
    forall id ensures Held(x, schedd, id) == Held(y, schedd, id) <==> NoMatterWhich(base, schedd, pa, pb, id) {
      ReplayEnds(a, src, n, id);
      ReplayEnds(b, src, n, id);
      FoundIff(base, schedd, id);
      assert Held(base, schedd, id) <= SrcOf(src, n, id);
      GrownWhole(Held(base, schedd, id), SrcOf(src, n, id), Known(base, schedd, id, pa));
      GrownWhole(Held(base, schedd, id), SrcOf(src, n, id), Known(base, schedd, id, pb));
    }
  }

  lemma {:induction false} FoundIff(base: seq<Entry>, schedd: string, id: Id)
    ensures CountHeld(base, schedd, id) <= CountAll(base, schedd, id)
    ensures AllFound(base, schedd, id) <==> CountHeld(base, schedd, id) == CountAll(base, schedd, id)
  {
    VisibleAll(Held(base, schedd, id));
  }
}
