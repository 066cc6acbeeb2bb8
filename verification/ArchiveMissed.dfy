/** Where the exact query and the loaded set part: what a Reset replay does with a record the query misses. */
module ArchiveMissed {
  import opened Text
  import opened Store
  import opened ArchiveSpec
  import opened ArchiveRun
  import opened ArchiveTheorems
  import opened ArchiveReplay
  import I = ArchiveIdentity

  /** A stored record as the sink counts it: its digest, and whether an exact query can find it. */
  function AsRec(spec: seq<I.Part>, r: I.Record, data: string): Rec {
    Rec(if I.Identity(spec, r).Some? then Some(I.DigestBytes(spec, I.Identity(spec, r).value)) else None,
        !I.HasOdd(spec, r), data)
  }

  /** The query for an identity finds exactly the records of its digest that hold no odd part; the loaded set
      counts every record of its digest. */
  lemma {:induction false} ProbeFindsVisible(spec: seq<I.Part>, id: seq<I.IdVal>, held: I.Record, data: string)
    requires I.IsIdentity(spec, id) && I.MachineId(id)
    requires I.Identity(spec, held).Some? ==> I.MachineId(I.Identity(spec, held).value)
    ensures var rec := AsRec(spec, held, data);
            && (I.SetCounts(spec, id, held) <==> rec.id == Some(I.DigestBytes(spec, id)))
            && (I.ProbeAdmits(spec, id, held) <==> rec.id == Some(I.DigestBytes(spec, id)) && rec.visible)
  {
    hide I.DigestBytes, I.MachineId, I.PartAdmits, I.Odd;
    if I.Identity(spec, held).Some? {
      I.ExtractedIsIdentity(spec, held);
      I.DigestExact(spec, I.Identity(spec, held).value, id);
    }
    if !I.HasOdd(spec, held) {
      I.RecordAgrees(spec, id, held);
    } else {
      var k :| 0 <= k < |spec| && I.Odd(spec[k], I.Get(held, spec[k].attr));
      OddMissed(spec[k], id[k], I.Get(held, spec[k].attr));
    }
  }

  lemma {:induction false} OddMissed(p: I.Part, id: I.IdVal, v: I.Value)
    requires I.Odd(p, v) && (p.integer ==> !id.StrId?) && (!p.integer ==> !id.IntId?)
    ensures !I.PartAdmits(id, p, v)
  {
  }

  // ---------------------------------------------------------------------------------------
  // The same record replayed twice.

  function OneReplay(rec: Rec): seq<Action> {
    [Begin(false), Recv(Reset(Empty), GOOD), Recv(Upsert(Some(rec), Empty), GOOD)]
  }

  lemma {:induction false} RunConcat(sys: Sys, a: seq<Action>, b: seq<Action>, src: seq<Rec>)
    ensures Run(sys, a + b) == Run(Run(sys, a), b)
    ensures ValidRun(sys, a + b, src) <==> ValidRun(sys, a, src) && ValidRun(Run(sys, a), b, src)
    decreases |a|
  {
    hide Allowed, Next;
    if a == [] {
      assert a + b == b;
    } else {
      assert (a + b)[1..] == a[1..] + b;
      RunConcat(Next(sys, a[0]), a[1..], b, src);
    }
  }

  lemma {:induction false} RunThree(sys: Sys, a: Action, b: Action, c: Action, src: seq<Rec>)
    ensures Run(sys, [a, b, c]) == Next(Next(Next(sys, a), b), c)
    ensures ValidRun(sys, [a, b, c], src) <==>
            Allowed(sys, a, src) && Allowed(Next(sys, a), b, src) && Allowed(Next(Next(sys, a), b), c, src)
  {
    hide Allowed, Next, Run, ValidRun;
    var x := Next(sys, a);
    var y := Next(x, b);
    assert [a, b, c] == [a] + [b, c] && [b, c] == [b] + [c] && [c] == [c] + [];
    RunFirst(sys, a, [b, c], src);
    RunFirst(x, b, [c], src);
    RunFirst(y, c, [], src);
    NoActions(Next(y, c), src);
  }

  lemma {:induction false} NoActions(sys: Sys, src: seq<Rec>)
    ensures Run(sys, []) == sys && ValidRun(sys, [], src)
  {
  }

  /** What the sink does with one record it meets first. */
  lemma {:induction false} FirstRecord(sys: Sys, rec: Rec)
    requires sys.feed == Stream(0, true) && Fresh(sys.s) && sys.s.full && rec.id.Some?
    ensures var end := Next(sys, Recv(Upsert(Some(rec), Empty), GOOD));
            && end.w.arch == sys.w.arch + (if Found(sys.w, sys.s, rec.id.value) ==
                                           0 then [Entry(sys.s.schedd, rec)] else [])
            && end.feed == Stream(1, true) && !end.s.failed && end.s.schedd == sys.s.schedd
            && end.s.budget == sys.s.budget && end.high == Max(sys.high, 1)
  {
    hide LookUp, Found;
    LookUpFinds(sys.w, sys.s, rec.id.value);
  }

  /** The count a first look-up finds. */
  function FirstCount(sys: Sys, id: Id): nat {
    if sys.s.budget == 0 then CountAll(sys.w.arch, sys.s.schedd, id) else CountHeld(sys.w.arch, sys.s.schedd, id)
  }

  /** One replay of a one-record source. */
  lemma {:induction false} Replayed(sys: Sys, rec: Rec)
    requires sys.feed == Idle && rec.id.Some?
    ensures ValidRun(sys, OneReplay(rec), [rec])
    ensures var end := Run(sys, OneReplay(rec));
            && end.w.arch == sys.w.arch + (if FirstCount(sys, rec.id.value) ==
                                           0 then [Entry(sys.s.schedd, rec)] else [])
            && end.feed == Stream(1, true) && !end.s.failed && end.s.schedd == sys.s.schedd
            && end.s.budget == sys.s.budget && end.high == Max(sys.high, 1)
  {
    hide CountHeld, CountAll, Run, ValidRun;
    var acts := OneReplay(rec);
    RunThree(sys, acts[0], acts[1], acts[2], [rec]);
    var s2 := Next(Next(sys, acts[0]), acts[1]);
    FirstRecord(s2, rec);
    assert s2.w.arch == sys.w.arch && s2.high == sys.high;
  }

  /** The record replayed, the session dropped, and the record replayed again. */
  function Twice(rec: Rec): seq<Action> { OneReplay(rec) + ([End] + OneReplay(rec)) }

  /** A record the query misses, in a source that holds nothing else. From an empty hub, a dropped session and
      two replays: with any probe budget the second replay appends it again, so the archive is no prefix of the
      source and Synced ends with a copy too many; with none, the loaded set matches it. */
  lemma {:induction false} ReplayDuplicates(schedd: string, budget: nat, rec: Rec)
    requires rec.id.Some? && !rec.visible
    ensures ValidRun(Start([], schedd, budget), Twice(rec), [rec])
    ensures var sys, e := Run(Start([], schedd, budget), Twice(rec)), Entry(schedd, rec);
            && sys.w.arch == (if budget == 0 then [e] else [e, e]) && !sys.s.failed
            && Allowed(sys, Recv(Synced(At(1)), GOOD), [rec])
            && var end := Next(sys, Recv(Synced(At(1)), GOOD));
              && end.w.arch == sys.w.arch
              && (Prefixes(sys.w.arch, schedd, [rec], 1) <==> budget == 0)
              && (Equals(end.w.arch, schedd, [rec], 1) <==> budget == 0)
  {
    hide CountHeld, CountAll, Run, ValidRun, OneReplay, Prefixes, Equals, TakeRecord;
    var start, once, e := Start([], schedd, budget), OneReplay(rec), Entry(schedd, rec);
    Replayed(start, rec);
    NoneHeld(schedd, rec.id.value);
    OneHeld(schedd, rec);
    var mid := Run(start, once);
    assert mid.w.arch == [e];
    var again := Next(mid, End);
    Replayed(again, rec);
    RunConcat(start, once, [End] + once, [rec]);
    RunFirst(mid, End, once, [rec]);
    var sys := Run(again, once);
    assert again.w.arch == [e] && again.s.schedd == schedd && again.s.budget == budget;
    assert [e] + [e] == [e, e] && [e] + [] == [e];
    TwoHeld(schedd, rec);
    SyncedKeeps(sys);
  }

  lemma {:induction false} RunFirst(sys: Sys, a: Action, rest: seq<Action>, src: seq<Rec>)
    ensures Run(sys, [a] + rest) == Run(Next(sys, a), rest)
    ensures ValidRun(sys, [a] + rest, src) <==> Allowed(sys, a, src) && ValidRun(Next(sys, a), rest, src)
  {
    hide Allowed, Next;
    assert ([a] + rest)[1..] == rest;
  }

  lemma {:induction false} NoneHeld(schedd: string, id: Id)
    ensures CountHeld([], schedd, id) == 0 && CountAll([], schedd, id) == 0
  {
  }

  lemma {:induction false} SyncedKeeps(sys: Sys)
    requires !sys.s.failed
    ensures Next(sys, Recv(Synced(At(1)), GOOD)).w.arch == sys.w.arch
  {
  }

  lemma {:induction false} TwoHeld(schedd: string, rec: Rec)
    requires rec.id.Some?
    ensures var e, src := Entry(schedd, rec), [rec];
            && CountAll([e], schedd, rec.id.value) == 1
            && Prefixes([e], schedd, src, 1) && Equals([e], schedd, src, 1)
            && !Prefixes([e, e], schedd, src, 1) && !Equals([e, e], schedd, src, 1)
  {
    var e, id := Entry(schedd, rec), rec.id.value;
    forall i ensures Held([e], schedd, i) == SrcOf([rec], 1, i) {
      assert [e] == [] + [e] && Held([], schedd, i) == [];
      HeldSnoc([], e, schedd, i);
      assert SrcOf([rec], 0, i) == [];
    }
    assert [e, e] == [e] + [e];
    HeldSnoc([e], e, schedd, id);
    assert SrcOf([rec], 0, id) == [];
    assert |Held([e, e], schedd, id)| == 2 && |SrcOf([rec], 1, id)| == 1;
  }

  /** The job epoch whose EpochAdType is a number is such a record. */
  lemma {:induction false} EpochDuplicates(schedd: string, data: string)
    ensures var held: I.Record := map["GlobalJobId" := I.StrV("ap#1.0"), "RunInstanceID" := I.IntV(1),
                                      "EpochAdType" := I.IntV(5)];
            var rec := AsRec(I.EPOCH, held, data);
            && rec.id.Some? && !rec.visible
            && !Equals(Next(Run(Start([], schedd, 1), Twice(rec)), Recv(Synced(At(1)), GOOD)).w.arch, schedd, [rec], 1)
            && Run(Start([], schedd, 1), Twice(rec)).w.arch != Run(Start([], schedd, 0), Twice(rec)).w.arch
  {
    hide I.DigestBytes, Twice, Run, Equals, Prefixes, Next, ValidRun;
    var held: I.Record := map["GlobalJobId" := I.StrV("ap#1.0"), "RunInstanceID" := I.IntV(1),
                              "EpochAdType" := I.IntV(5)];
    var rec := AsRec(I.EPOCH, held, data);
    I.EpochDiffers();
    assert I.Odd(I.EPOCH[2], I.Get(held, I.EPOCH[2].attr));
    ReplayDuplicates(schedd, 0, rec);
    ReplayDuplicates(schedd, 1, rec);
  }
}
