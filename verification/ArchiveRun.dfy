/** Runs of the archive sink: sessions, failures, crashes that lose the unsynced tail, and other
    schedds' records in between. */
module ArchiveRun {
  import opened Text
  import opened Store
  import opened ArchiveSpec

  // ---------------------------------------------------------------------------------------
  // The source archive and the feed.

  /** The source's records of one identity among its first n. */
  function SrcOf(src: seq<Rec>, n: nat, id: Id): seq<Rec>
    requires n <= |src|
  {
    if n == 0 then [] else SrcOf(src, n - 1, id) + (if src[n - 1].id == Some(id) then [src[n - 1]] else [])
  }

  datatype Feed =
    | Idle
    | AwaitReset
    | Stream(pos: nat, replay: bool)    // pos records delivered; replay: since a Reset, before Synced

  /** base and from describe the catch-up under way: the archive it started on and the position it
      started at. high is the furthest position ever delivered. */
  datatype Sys = Sys(w: World, s: Sink, feed: Feed, high: nat, base: seq<Entry>, from: nat)

  datatype Action =
    | Begin(resume: bool)
    | End
    | FlushNow(f: Faults)
    | Recv(c: Change, f: Faults)
    | Crash(kept: nat)                  // keeps arch[..kept], at least what was synced
    | Others(entry: Entry)              // another schedd's sink appends
    | OthersSync(upTo: nat)             // and syncs the archive

  /** What the stream may deliver next. In a resumed catch-up an identity met again must be one that
      first appears after the cursor; a Reset replay may repeat identities freely. */
  ghost predicate Delivers(sys: Sys, c: Change, src: seq<Rec>) {
    match sys.feed
    case Stream(pos, replay) =>
      (match c
       case Upsert(Some(rec), cur) =>
         && pos < |src| && rec == src[pos] && cur == (if replay then Empty else At(pos + 1))
         && (sys.s.catchup && !replay && rec.id.Some? && sys.from <= |src| ==> SrcOf(src, sys.from, rec.id.value) == [])
       case Reset(cur) => cur == Empty
       case Synced(cur) => pos >= sys.high && (cur == At(pos) || (cur == Empty && !replay))
       case _ => false)
    case AwaitReset => c == Reset(Empty)
    case Idle => false
  }

  ghost predicate Allowed(sys: Sys, a: Action, src: seq<Rec>) {
    match a
    case Begin(_) => sys.feed == Idle
    case End => sys.feed != Idle
    case FlushNow(_) => sys.feed != Idle
    case Recv(c, _) => sys.s.failed || Delivers(sys, c, src)
    case Crash(kept) => sys.w.synced <= kept <= |sys.w.arch|
    case Others(e) => e.schedd != sys.s.schedd
    case OthersSync(n) => sys.w.synced <= n <= |sys.w.arch|
  }

  function Max(a: int, b: int): int { if a > b then a else b }

  function Next(sys: Sys, a: Action): Sys {
    match a
    case Begin(resume) =>
      var s := BeginSession(sys.s);
      if resume && s.cur.At? then sys.(s := s, feed := Stream(s.cur.pos, false), base := sys.w.arch, from := s.cur.pos)
      else sys.(s := s, feed := AwaitReset)
    case End => sys.(s := EndSession(sys.s), feed := Idle)
    case FlushNow(f) =>
      var r := FlushCall(sys.w, sys.s, f);
      sys.(w := r.w, s := r.s)
    case Recv(c, f) =>
      var r := Apply(sys.w, sys.s, c, f);
      var pos := if sys.feed.Stream? && c.Upsert? then sys.feed.pos + 1 else sys.high;
      var sys1 := sys.(w := r.w, s := r.s, high := if sys.s.failed then sys.high else Max(sys.high, pos));
      if !r.ok then sys1
      else if c.Reset? then sys1.(feed := Stream(0, true), base := r.w.arch, from := 0)
      else if !sys.feed.Stream? then sys1
      else if c.Synced? then sys1.(feed := Stream(sys.feed.pos, false))
      else sys1.(feed := Stream(sys.feed.pos + 1, sys.feed.replay))
    case Crash(kept) =>
      var w := if kept <= |sys.w.arch| then sys.w.(arch := sys.w.arch[..kept], synced := kept) else sys.w;
      sys.(w := w, s := NewSink(sys.s.schedd, sys.s.budget, sys.w.durable), feed := Idle)
    case Others(e) => sys.(w := sys.w.(arch := sys.w.arch + [e]))
    case OthersSync(n) => sys.(w := sys.w.(synced := n))
  }

  // ---------------------------------------------------------------------------------------
  // The invariant.

  /** Every identity's records in a are at least as many as the source's first p hold. */
  ghost predicate Covers(a: seq<Entry>, schedd: string, src: seq<Rec>, p: nat)
    requires p <= |src|
  {
    forall id :: |SrcOf(src, p, id)| <= |Held(a, schedd, id)|
  }

  /** The hub's records of each identity are a prefix of the source's. */
  ghost predicate Prefixes(a: seq<Entry>, schedd: string, src: seq<Rec>, n: nat)
    requires n <= |src|
  {
    forall id :: Held(a, schedd, id) <= SrcOf(src, n, id)
  }

  /** Every source record carries an identity, and the exact query would find it. */
  predicate Findable(src: seq<Rec>) { forall i :: 0 <= i < |src| ==> src[i].id.Some? && src[i].visible }

  /** The exact query misses none of the hub's records. */
  ghost predicate Clear(a: seq<Entry>, schedd: string) {
    forall id :: CountHeld(a, schedd, id) == CountAll(a, schedd, id)
  }

  /** And equal them. */
  ghost predicate Equals(a: seq<Entry>, schedd: string, src: seq<Rec>, n: nat)
    requires n <= |src|
  {
    forall id :: Held(a, schedd, id) == SrcOf(src, n, id)
  }

  /** A committed cursor covers only synced records. */
  ghost predicate CursorOk(w: World, s: Sink, c: Cursor, high: nat, src: seq<Rec>)
    requires high <= |src| && w.synced <= |w.arch|
  {
    c.At? ==> c.pos <= high && Covers(w.arch[..w.synced], s.schedd, src, c.pos)
  }

  ghost predicate SyncOk(w: World, s: Sink)
    requires w.synced <= |w.arch|
  {
    !s.appended ==> forall id :: |Held(w.arch[..w.synced], s.schedd, id)| == |Held(w.arch, s.schedd, id)|
  }

  ghost predicate StoreOk(w: World, s: Sink, high: nat, src: seq<Rec>) {
    && high <= |src| && w.synced <= |w.arch|
    && Prefixes(w.arch, s.schedd, src, high)
    && CursorOk(w, s, s.cur, high, src) && CursorOk(w, s, w.durable, high, src)
    && SyncOk(w, s)
    && (s.nextCur.At? ==> s.nextCur.pos <= high && Covers(w.arch, s.schedd, src, s.nextCur.pos))
  }

  /** How many records of id the catch-up has met. */
  function Met(src: seq<Rec>, from: nat, pos: nat, id: Id): int
    requires from <= |src| && pos <= |src|
  {
    |SrcOf(src, pos, id)| - |SrcOf(src, from, id)|
  }

  /** What the sink has left to match of an identity: what the archive held when the catch-up began,
      less what the catch-up met -- however it came to know the count. */
  predicate RemainingOk(s: Sink, base: seq<Entry>, src: seq<Rec>, from: nat, pos: nat, id: Id)
    requires from <= |src| && pos <= |src|
  {
    var held, met := |Held(base, s.schedd, id)|, Met(src, from, pos, id);
    if id in s.remaining then s.remaining[id] == Max(0, held - met)
    else met == 0 && (s.setLoaded ==> held == 0)
  }

  predicate CountOk(w: World, s: Sink, base: seq<Entry>, src: seq<Rec>, from: nat, pos: nat, id: Id)
    requires from <= |src| && pos <= |src|
  {
    |Held(w.arch, s.schedd, id)| == Max(|Held(base, s.schedd, id)|, Met(src, from, pos, id))
  }

  ghost predicate AllRemaining(s: Sink, base: seq<Entry>, src: seq<Rec>, from: nat, pos: nat)
    requires from <= |src| && pos <= |src|
  {
    forall id :: RemainingOk(s, base, src, from, pos, id)
  }

  ghost predicate AllCounts(w: World, s: Sink, base: seq<Entry>, src: seq<Rec>, from: nat, pos: nat)
    requires from <= |src| && pos <= |src|
  {
    forall id :: CountOk(w, s, base, src, from, pos, id)
  }

  ghost predicate CatchupOk(sys: Sys, src: seq<Rec>)
    requires sys.feed.Stream?
  {
    var pos := sys.feed.pos;
    && sys.from <= pos <= |src|
    && AllRemaining(sys.s, sys.base, src, sys.from, pos)
    && AllCounts(sys.w, sys.s, sys.base, src, sys.from, pos)
    && (if sys.feed.replay then sys.from == 0 && sys.s.nextCur == Empty
        else Covers(sys.base, sys.s.schedd, src, sys.from) && FreshIds(src, sys.from, pos))
  }

  /** In a resumed catch-up no identity met so far occurs before the cursor. */
  ghost predicate FreshIds(src: seq<Rec>, from: nat, pos: nat)
    requires from <= |src| && pos <= |src|
  {
    forall id :: Met(src, from, pos, id) > 0 ==> SrcOf(src, from, id) == []
  }

  ghost predicate FeedInv(sys: Sys, src: seq<Rec>)
    requires sys.high <= |src|
  {
    match sys.feed
    case Idle => true
    case AwaitReset => sys.s.nextCur == Empty
    case Stream(pos, replay) =>
      && pos <= sys.high
      && if sys.s.catchup then CatchupOk(sys, src)
         else !replay && Equals(sys.w.arch, sys.s.schedd, src, pos) && pos == sys.high
  }

  ghost predicate Inv(sys: Sys, src: seq<Rec>) {
    && sys.high <= |src| && StoreOk(sys.w, sys.s, sys.high, src)
    && Findable(src)
    && (sys.s.failed ==> sys.s.nextCur == Empty)
    && (!sys.s.failed ==> FeedInv(sys, src))
  }

  // ---------------------------------------------------------------------------------------
  // Counting lemmas.

  lemma {:induction false} HeldSnoc(arch: seq<Entry>, e: Entry, schedd: string, id: Id)
    ensures Held(arch + [e], schedd, id) == Held(arch, schedd, id) + (if Mine(e, schedd, id) then [e.rec] else [])
  {
    assert (arch + [e])[..|arch|] == arch;
  }

  lemma {:induction false} HeldPrefix(arch: seq<Entry>, k: nat, schedd: string, id: Id)
    requires k <= |arch|
    ensures Held(arch[..k], schedd, id) <= Held(arch, schedd, id)
    decreases |arch| - k
  {
    if k < |arch| {
      assert arch[..k + 1][..k] == arch[..k];
      HeldPrefix(arch, k + 1, schedd, id);
    } else {
      assert arch[..k] == arch;
    }
  }

  lemma {:induction false} SrcPrefix(src: seq<Rec>, m: nat, n: nat, id: Id)
    requires m <= n <= |src|
    ensures SrcOf(src, m, id) <= SrcOf(src, n, id)
    decreases n - m
  {
    if m < n {
      SrcPrefix(src, m + 1, n, id);
    }
  }

  lemma {:induction false} HeldAbsent(arch: seq<Entry>, schedd: string, id: Id)
    requires id !in HeldIds(arch, schedd)
    ensures Held(arch, schedd, id) == []
  {
    if arch != [] {
      var init, last := arch[..|arch| - 1], arch[|arch| - 1];
      assert last in arch;
      assert forall e :: e in init ==> e in arch;
      HeldAbsent(init, schedd, id);
    }
  }

  lemma {:induction false} PrefixesHigher(a: seq<Entry>, schedd: string, src: seq<Rec>, m: nat, n: nat)
    requires m <= n <= |src| && Prefixes(a, schedd, src, m)
    ensures Prefixes(a, schedd, src, n)
  {
    forall id ensures Held(a, schedd, id) <= SrcOf(src, n, id) {
      SrcPrefix(src, m, n, id);
      assert Held(a, schedd, id) <= SrcOf(src, m, id);
    }
  }

  lemma {:induction false} VisibleAll(recs: seq<Rec>)
    ensures |Visible(recs)| <= |recs|
    ensures |Visible(recs)| == |recs| <==> forall i :: 0 <= i < |recs| ==> recs[i].visible
  {
    if recs != [] {
      VisibleAll(recs[..|recs| - 1]);
    }
  }

  lemma {:induction false} SrcFindable(src: seq<Rec>, n: nat, id: Id)
    requires Findable(src) && n <= |src|
    ensures forall i :: 0 <= i < |SrcOf(src, n, id)| ==> SrcOf(src, n, id)[i].visible
  {
    if n > 0 { SrcFindable(src, n - 1, id); }
  }

  /** A hub that holds prefixes of findable records holds only those. */
  lemma {:induction false} PrefixesClear(a: seq<Entry>, schedd: string, src: seq<Rec>, n: nat)
    requires Findable(src) && n <= |src| && Prefixes(a, schedd, src, n)
    ensures Clear(a, schedd)
  {
    hide Held, SrcOf, Visible;
    forall id ensures CountHeld(a, schedd, id) == CountAll(a, schedd, id) {
      assert Held(a, schedd, id) <= SrcOf(src, n, id);
      SrcFindable(src, n, id);
      VisibleAll(Held(a, schedd, id));
    }
  }

  // ---------------------------------------------------------------------------------------
  // Dedup by count.

  lemma {:induction false} MetStep(src: seq<Rec>, from: nat, pos: nat, id: Id)
    requires from <= pos < |src|
    ensures Met(src, from, pos + 1, id) == Met(src, from, pos, id) + (if src[pos].id == Some(id) then 1 else 0)
    ensures 0 <= Met(src, from, pos, id)
  {
    SrcPrefix(src, from, pos, id);
  }

  lemma {:induction false} LoadOk(w: World, s: Sink, base: seq<Entry>, src: seq<Rec>, from: nat, pos: nat, id: Id)
    requires from <= |src| && pos <= |src|
    requires RemainingOk(s, base, src, from, pos, id) && CountOk(w, s, base, src, from, pos, id)
    ensures RemainingOk(s.(remaining := Load(s.remaining, w.arch, s.schedd), setLoaded := true), base, src, from, pos,
                        id)
  {
    hide SrcOf, HeldIds;
    if id !in s.remaining && id !in HeldIds(w.arch, s.schedd) {
      HeldAbsent(w.arch, s.schedd, id);
    }
  }

  /** Consuming one match of the next record's identity, from a count n that is right for it. */
  lemma {:induction false} ConsumeOk(s: Sink, n: nat, base: seq<Entry>, src: seq<Rec>, from: nat, pos: nat, i: Id)
    requires from <= pos < |src| && src[pos].id.Some? && RemainingOk(s, base, src, from, pos, i)
    requires n == Max(0, |Held(base, s.schedd, src[pos].id.value)| - Met(src, from, pos, src[pos].id.value))
    ensures var (s1, held) := Consume(s, src[pos].id.value, n);
            && RemainingOk(s1, base, src, from, pos + 1, i)
            && held == Some(Met(src, from, pos, src[pos].id.value) < |Held(base, s.schedd, src[pos].id.value)|)
  {
    hide SrcOf, Held, Met;
    MetStep(src, from, pos, src[pos].id.value);
    MetStep(src, from, pos, i);
  }

  /** One identity's count across the look-up of the next record. */
  lemma {:induction false} DedupOne(w: World, s: Sink, base: seq<Entry>, src: seq<Rec>, from: nat, pos: nat, i: Id)
    requires from <= pos < |src| && src[pos].id.Some?
    requires RemainingOk(s, base, src, from, pos, src[pos].id.value) &&
             CountOk(w, s, base, src, from, pos, src[pos].id.value)
    requires CountHeld(w.arch, s.schedd, src[pos].id.value) == CountAll(w.arch, s.schedd, src[pos].id.value)
    requires RemainingOk(s, base, src, from, pos, i) && CountOk(w, s, base, src, from, pos, i)
    ensures RemainingOk(LookUp(w, s, src[pos].id.value, true).0, base, src, from, pos + 1, i)
    ensures LookUp(w, s, src[pos].id.value, true).1 ==
            Some(Met(src, from, pos, src[pos].id.value) < |Held(base, s.schedd, src[pos].id.value)|)
  {
    hide SrcOf, Held, Load, Met, Consume, Visible;
    var id := src[pos].id.value;
    MetStep(src, from, pos, id);
    if id in s.remaining || s.setLoaded {
      ConsumeOk(s, if id in s.remaining then s.remaining[id] else 0, base, src, from, pos, i);
    } else if s.full && s.probes >= s.budget {
      LoadOk(w, s, base, src, from, pos, id);
      LoadOk(w, s, base, src, from, pos, i);
      var s1 := s.(remaining := Load(s.remaining, w.arch, s.schedd), setLoaded := true);
      ConsumeOk(s1, if id in s1.remaining then s1.remaining[id] else 0, base, src, from, pos, i);
    } else {
      ConsumeOk(s.(probes := s.probes + 1), CountHeld(w.arch, s.schedd, id), base, src, from, pos, i);
    }
  }

  /** Where the exact query misses nothing held, the next record is dropped exactly when the catch-up has met
      fewer of its identity than the archive held when it began -- by probe, by running count or from the
      loaded set alike -- and the sink's counts stay right. */
  lemma {:induction false} DedupByCount(w: World, s: Sink, base: seq<Entry>, src: seq<Rec>, from: nat, pos: nat)
    requires from <= pos < |src| && src[pos].id.Some?
    requires AllRemaining(s, base, src, from, pos) && AllCounts(w, s, base, src, from, pos) && Clear(w.arch, s.schedd)
    ensures var id := src[pos].id.value;
            var (s1, held) := LookUp(w, s, id, true);
            && held == Some(Met(src, from, pos, id) < |Held(base, s.schedd, id)|)
            && AllRemaining(s1, base, src, from, pos + 1)
            && s1 == s.(probes := s1.probes, remaining := s1.remaining, setLoaded := s1.setLoaded)
  {
    hide RemainingOk, CountOk, LookUp, CountHeld, CountAll;
    var id := src[pos].id.value;
    assert RemainingOk(s, base, src, from, pos, id) && CountOk(w, s, base, src, from, pos, id);
    LookUpFails(w, s, id, true);
    DedupOne(w, s, base, src, from, pos, id);
    var s1, p := LookUp(w, s, id, true).0, pos + 1;
    forall i ensures RemainingOk(s1, base, src, from, p, i) {
      assert RemainingOk(s, base, src, from, pos, i) && CountOk(w, s, base, src, from, pos, i);
      DedupOne(w, s, base, src, from, pos, i);
    }
  }

  /** A failed read leaves everything but the probe count. */
  lemma {:induction false} LookUpFails(w: World, s: Sink, id: Id, read: bool)
    ensures var (s1, held) := LookUp(w, s, id, read);
            && (held.None? ==> s1 == s.(probes := s1.probes))
            && s1 == s.(probes := s1.probes, remaining := s1.remaining, setLoaded := s1.setLoaded)
            && (held.Some? ==> (s1, held) == LookUp(w, s, id, true))
  {
    hide Load, CountHeld;
  }

  // ---------------------------------------------------------------------------------------
  // Appending.

  lemma {:induction false} AppendCounts(w: World, s: Sink, rec: Rec, id: Id)
    requires rec.id.Some?
    ensures var w1 := w.(arch := w.arch + [Entry(s.schedd, rec)]);
            Held(w1.arch, s.schedd, id) == Held(w.arch, s.schedd, id) + (if rec.id == Some(id) then [rec] else [])
  {
    HeldSnoc(w.arch, Entry(s.schedd, rec), s.schedd, id);
  }

  /** Appending a record that comes next of its identity keeps every hub sequence a prefix. */
  lemma {:induction false} AppendStore(w: World, s: Sink, src: seq<Rec>, pos: nat, high: nat)
    requires StoreOk(w, s, high, src) && pos < |src| && src[pos].id.Some?
    requires Held(w.arch, s.schedd, src[pos].id.value) == SrcOf(src, pos, src[pos].id.value)
    ensures var r := Append(w, s, src[pos], true);
            StoreOk(r.w, r.s, Max(high, pos + 1), src)
  {
    hide Mine;
    var id := src[pos].id.value;
    var h := Max(high, pos + 1);
    var r := Append(w, s, src[pos], true);
    assert r.w.arch[..w.synced] == w.arch[..w.synced];
    forall i ensures Held(r.w.arch, s.schedd, i) <= SrcOf(src, h, i) {
      AppendCounts(w, s, src[pos], i);
      assert Held(w.arch, s.schedd, i) <= SrcOf(src, high, i);
      SrcPrefix(src, high, h, i);
      SrcPrefix(src, pos + 1, h, i);
    }
    if s.nextCur.At? {
      forall i ensures |SrcOf(src, s.nextCur.pos, i)| <= |Held(r.w.arch, s.schedd, i)| {
        AppendCounts(w, s, src[pos], i);
        assert |SrcOf(src, s.nextCur.pos, i)| <= |Held(w.arch, s.schedd, i)|;
      }
    }
  }

  lemma {:induction false} StoreHigher(w: World, s: Sink, s1: Sink, high: nat, h: nat, src: seq<Rec>)
    requires StoreOk(w, s, high, src) && high <= h <= |src|
    requires s1 == s.(probes := s1.probes, remaining := s1.remaining, setLoaded := s1.setLoaded)
    ensures StoreOk(w, s1, h, src)
  {
    hide Covers;
    PrefixesHigher(w.arch, s.schedd, src, high, h);
  }

  lemma {:induction false} StoreClear(w: World, s: Sink, high: nat, src: seq<Rec>)
    requires StoreOk(w, s, high, src) && Findable(src)
    ensures Clear(w.arch, s.schedd)
  {
    hide Prefixes, Covers, Clear;
    PrefixesClear(w.arch, s.schedd, src, high);
  }

  // ---------------------------------------------------------------------------------------
  // One record.

  /** In a catch-up: the record is dropped or appended, and the counts advance. */
  lemma {:induction false} CatchupRecord(sys: Sys, f: Faults, src: seq<Rec>)
    requires Inv(sys, src) && !sys.s.failed && sys.feed.Stream? && sys.s.catchup && sys.feed.pos < |src|
    requires !sys.feed.replay ==> SrcOf(src, sys.from, src[sys.feed.pos].id.value) == []
    ensures var pos := sys.feed.pos;
            var r := TakeRecord(sys.w, sys.s, src[pos], f);
            && StoreOk(r.w, r.s, Max(sys.high, pos + 1), src)
            && r.s == sys.s.(probes := r.s.probes, remaining := r.s.remaining, setLoaded := r.s.setLoaded,
                             appended := r.s.appended)
            && (r.ok ==> AllRemaining(r.s, sys.base, src, sys.from, pos + 1))
            && (r.ok ==> AllCounts(r.w, r.s, sys.base, src, sys.from, pos + 1))
  {
    hide SrcOf, LookUp, StoreOk, AllRemaining, Met, RemainingOk, FreshIds, Covers;
    var pos, rec := sys.feed.pos, src[sys.feed.pos];
    var id := rec.id.value;
    var (s1, held) := LookUp(sys.w, sys.s, id, f.read);
    LookUpFails(sys.w, sys.s, id, f.read);
    StoreClear(sys.w, sys.s, sys.high, src);
    DedupByCount(sys.w, sys.s, sys.base, src, sys.from, pos);
    assert pos <= sys.high;
    StoreHigher(sys.w, sys.s, s1, sys.high, Max(sys.high, pos + 1), src);
    StoreHigher(sys.w, sys.s, s1, sys.high, sys.high, src);
    assert CountOk(sys.w, sys.s, sys.base, src, sys.from, pos, id);
    var r := TakeRecord(sys.w, sys.s, rec, f);
    if held == Some(false) && f.append {
      NextOfIdentity(sys, src);
      AppendStore(sys.w, s1, src, pos, sys.high);
    }
    if r.ok {
      SameRemaining(s1, r.s, sys.base, src, sys.from, pos + 1);
      CountsStep(sys, s1, held.value, src);
    }
  }

  lemma {:induction false} SameRemaining(s: Sink, s1: Sink, base: seq<Entry>, src: seq<Rec>, from: nat, pos: nat)
    requires from <= |src| && pos <= |src| && AllRemaining(s, base, src, from, pos)
    requires s1.schedd == s.schedd && s1.remaining == s.remaining && s1.setLoaded == s.setLoaded
    ensures AllRemaining(s1, base, src, from, pos)
  {
    hide Held, Met;
    forall id ensures RemainingOk(s1, base, src, from, pos, id) { assert RemainingOk(s, base, src, from, pos, id); }
  }

  lemma {:induction false} CountsStep(sys: Sys, s1: Sink, held: bool, src: seq<Rec>)
    requires sys.feed.Stream? && sys.from <= sys.feed.pos < |src| && src[sys.feed.pos].id.Some?
    requires AllCounts(sys.w, sys.s, sys.base, src, sys.from, sys.feed.pos) && s1.schedd == sys.s.schedd
    requires var id := src[sys.feed.pos].id.value;
             held == (Met(src, sys.from, sys.feed.pos, id) < |Held(sys.base, sys.s.schedd, id)|)
    ensures var r := if held then Done(sys.w, s1, true) else Append(sys.w, s1, src[sys.feed.pos], true);
            AllCounts(r.w, r.s, sys.base, src, sys.from, sys.feed.pos + 1)
  {
    hide SrcOf, Held, Met;
    var pos := sys.feed.pos;
    var p := pos + 1;
    var r := if held then Done(sys.w, s1, true) else Append(sys.w, s1, src[pos], true);
    forall i ensures CountOk(r.w, r.s, sys.base, src, sys.from, p, i) {
      assert CountOk(sys.w, sys.s, sys.base, src, sys.from, pos, i);
      MetStep(src, sys.from, pos, i);
      AppendCounts(sys.w, s1, src[pos], i);
    }
  }

  /** When the catch-up has met as many of the identity as the archive held, what the hub holds of it
      is exactly what the source had before this record. */
  lemma {:induction false} NextOfIdentity(sys: Sys, src: seq<Rec>)
    requires Inv(sys, src) && !sys.s.failed && sys.feed.Stream? && sys.s.catchup && sys.feed.pos < |src|
    requires var id := src[sys.feed.pos].id.value;
             && Met(src, sys.from, sys.feed.pos, id) >= |Held(sys.base, sys.s.schedd, id)|
             && (!sys.feed.replay ==> SrcOf(src, sys.from, id) == [])
    ensures Held(sys.w.arch, sys.s.schedd, src[sys.feed.pos].id.value) ==
            SrcOf(src, sys.feed.pos, src[sys.feed.pos].id.value)
  {
    hide Covers, SyncOk, CursorOk, RemainingOk, FreshIds, Held;
    var id := src[sys.feed.pos].id.value;
    assert CountOk(sys.w, sys.s, sys.base, src, sys.from, sys.feed.pos, id);
    assert SrcOf(src, sys.from, id) == [];
    assert Held(sys.w.arch, sys.s.schedd, id) <= SrcOf(src, sys.high, id);
    SrcPrefix(src, sys.feed.pos, sys.high, id);
  }

  /** A resumed catch-up covers everything it has delivered. */
  lemma {:induction false} CatchupCovers(w: World, s: Sink, base: seq<Entry>, src: seq<Rec>, from: nat, pos: nat)
    requires from <= pos <= |src| && Covers(base, s.schedd, src, from) && FreshIds(src, from, pos)
    requires AllCounts(w, s, base, src, from, pos)
    ensures Covers(w.arch, s.schedd, src, pos)
  {
    hide SrcOf, Held;
    forall id ensures |SrcOf(src, pos, id)| <= |Held(w.arch, s.schedd, id)| {
      assert CountOk(w, s, base, src, from, pos, id);
      assert |SrcOf(src, from, id)| <= |Held(base, s.schedd, id)|;
      SrcPrefix(src, from, pos, id);
    }
  }

  lemma {:induction false} FreshStep(src: seq<Rec>, from: nat, pos: nat)
    requires from <= pos < |src| && FreshIds(src, from, pos) && src[pos].id.Some? &&
             SrcOf(src, from, src[pos].id.value) == []
    ensures FreshIds(src, from, pos + 1)
  {
    hide SrcOf, Met;
    var p := pos + 1;
    forall id | Met(src, from, p, id) > 0 ensures SrcOf(src, from, id) == [] {
      MetStep(src, from, pos, id);
    }
  }

  /** At the end of a catch-up that delivered everything, the hub equals the source. */
  lemma {:induction false} CatchupEquals(sys: Sys, src: seq<Rec>)
    requires Inv(sys, src) && !sys.s.failed && sys.feed.Stream? && sys.s.catchup && sys.feed.pos >= sys.high
    ensures Equals(sys.w.arch, sys.s.schedd, src, sys.feed.pos)
  {
    hide SyncOk, CursorOk, RemainingOk, Held;
    var pos := sys.feed.pos;
    forall id ensures Held(sys.w.arch, sys.s.schedd, id) == SrcOf(src, pos, id) {
      assert CountOk(sys.w, sys.s, sys.base, src, sys.from, pos, id);
      assert Held(sys.w.arch, sys.s.schedd, id) <= SrcOf(src, pos, id);
      SrcPrefix(src, sys.from, pos, id);
      if !sys.feed.replay {
        CatchupCovers(sys.w, sys.s, sys.base, src, sys.from, pos);
        assert |SrcOf(src, pos, id)| <= |Held(sys.w.arch, sys.s.schedd, id)|;
      }
    }
  }

  // ---------------------------------------------------------------------------------------
  // Flush.

  lemma {:induction false} SyncCovers(w: World, s: Sink, src: seq<Rec>, p: nat)
    requires p <= |src| && w.synced <= |w.arch| && Covers(w.arch[..w.synced], s.schedd, src, p)
    ensures Covers(w.arch, s.schedd, src, p)
  {
    hide SrcOf;
    forall id ensures |SrcOf(src, p, id)| <= |Held(w.arch, s.schedd, id)| {
      HeldPrefix(w.arch, w.synced, s.schedd, id);
      assert |SrcOf(src, p, id)| <= |Held(w.arch[..w.synced], s.schedd, id)|;
    }
  }

  lemma {:induction false} SyncKeeps(w: World, s: Sink, high: nat, src: seq<Rec>)
    requires StoreOk(w, s, high, src)
    ensures StoreOk(w.(synced := |w.arch|), s, high, src)
    ensures StoreOk(w.(synced := |w.arch|), s.(appended := false), high, src)
  {
    hide Prefixes, Covers;
    assert w.arch[..|w.arch|] == w.arch;
    if s.cur.At? { SyncCovers(w, s, src, s.cur.pos); }
    if w.durable.At? { SyncCovers(w, s, src, w.durable.pos); }
  }

  lemma {:induction false} SaveKeeps(w: World, s: Sink, high: nat, src: seq<Rec>)
    requires StoreOk(w, s, high, src) && s.nextCur.At? && !s.appended
    ensures StoreOk(w.(durable := s.nextCur), s.(nextCur := Empty), high, src)
    ensures StoreOk(w.(durable := s.nextCur), s.(nextCur := Empty, cur := s.nextCur), high, src)
  {
    hide Prefixes, SrcOf, Held;
    forall id ensures |SrcOf(src, s.nextCur.pos, id)| <= |Held(w.arch[..w.synced], s.schedd, id)| {
      assert |SrcOf(src, s.nextCur.pos, id)| <= |Held(w.arch, s.schedd, id)|;
    }
  }

  lemma {:induction false} SyncStep(w: World, s: Sink, o: Outcome, high: nat, src: seq<Rec>)
    requires StoreOk(w, s, high, src)
    ensures var r := SyncData(w, s, o);
            && StoreOk(r.w, r.s, high, src) && r.w.arch == w.arch && r.w.durable == w.durable
            && r.s == s.(appended := r.s.appended) && (r.ok ==> !r.s.appended)
  {
    hide StoreOk;
    SyncKeeps(w, s, high, src);
  }

  lemma {:induction false} SaveStep(w: World, s: Sink, o: Outcome, high: nat, src: seq<Rec>)
    requires StoreOk(w, s, high, src) && !s.appended
    ensures var r := SaveCursor(w, s, o);
            && StoreOk(r.w, r.s, high, src) && r.w.arch == w.arch
            && r.s == s.(nextCur := r.s.nextCur, cur := r.s.cur)
            && (r.ok ==> r.s.nextCur == Empty && (s.nextCur.At? ==> r.s.cur == s.nextCur && r.w.durable == s.nextCur))
            && (s.nextCur == Empty ==> r.s.cur == s.cur && r.w.durable == w.durable)
  {
    hide StoreOk;
    DropNext(w, s, high, src);
    if s.nextCur.At? { SaveKeeps(w, s, high, src); }
  }

  /** Flushing never lets a committed cursor cover an unsynced record. */
  lemma {:induction false} FlushKeeps(w: World, s: Sink, f: Faults, high: nat, src: seq<Rec>)
    requires StoreOk(w, s, high, src)
    ensures var r := Flush(w, s, f);
            && StoreOk(r.w, r.s, high, src) && StoreOk(r.w, Fail(r.s), high, src) && r.w.arch == w.arch
            && r.s == s.(appended := r.s.appended, nextCur := r.s.nextCur, cur := r.s.cur)
            && (r.ok ==> r.s.nextCur == Empty && (s.nextCur.At? ==> r.s.cur == s.nextCur && r.w.durable == s.nextCur))
            && (s.nextCur == Empty ==> r.s.cur == s.cur && r.w.durable == w.durable)
  {
    hide SyncData, SaveCursor, StoreOk;
    SyncStep(w, s, f.sync, high, src);
    var r := SyncData(w, s, f.sync);
    if r.ok { SaveStep(r.w, r.s, f.save, high, src); }
    DropNext(Flush(w, s, f).w, Flush(w, s, f).s, high, src);
  }

  lemma {:induction false} DropNext(w: World, s: Sink, high: nat, src: seq<Rec>)
    requires StoreOk(w, s, high, src)
    ensures StoreOk(w, Fail(s), high, src) && StoreOk(w, s.(nextCur := Empty), high, src)
  {
    hide Prefixes, Covers;
  }

  lemma {:induction false} NoteStore(w: World, s: Sink, c: Cursor, high: nat, src: seq<Rec>)
    requires StoreOk(w, s, high, src)
    requires c.At? ==> c.pos <= high && Covers(w.arch, s.schedd, src, c.pos)
    ensures StoreOk(w, NoteCursor(s, c), high, src)
  {
    hide Prefixes, Covers;
  }

  lemma {:induction false} ClearKeeps(w: World, s: Sink, o: Outcome, high: nat, src: seq<Rec>)
    requires StoreOk(w, s, high, src)
    ensures StoreOk(ClearCursor(w, s, o).w, ClearCursor(w, s, o).s, high, src)
  {
    hide Prefixes, Covers;
  }

  /** A change that is taken leaves its cursor waiting to be committed, whatever it was; a Synced commits it. */
  lemma {:induction false} CursorFollows(w: World, s: Sink, c: Change, f: Faults)
    requires c.cursor.At? && Apply(w, s, c, f).ok
    ensures var r := Apply(w, s, c, f);
            if c.Synced? then r.s.cur == c.cursor && r.w.durable == c.cursor && r.s.nextCur == Empty
            else r.s.nextCur == c.cursor
  {
    hide TakeRecord, Load, CountHeld;
  }

  // ---------------------------------------------------------------------------------------
  // Every action keeps the invariant.

  lemma {:induction false} RecordInv(sys: Sys, c: Change, f: Faults, src: seq<Rec>)
    requires Inv(sys, src) && !sys.s.failed && Delivers(sys, c, src) && c.Upsert?
    ensures Inv(Next(sys, Recv(c, f)), src)
  {
    hide Covers, SyncOk, CursorOk, Prefixes, TakeRecord, AllRemaining, AllCounts, FreshIds, SrcOf;
    var pos := sys.feed.pos;
    var h := Max(sys.high, pos + 1);
    var r := TakeRecord(sys.w, sys.s, src[pos], f);
    if sys.s.catchup {
      CatchupRecord(sys, f, src);
      if r.ok {
        SameRemaining(r.s, NoteCursor(r.s, c.cursor), sys.base, src, sys.from, pos + 1);
        SameCounts(r.w, r.s, NoteCursor(r.s, c.cursor), sys.base, src, sys.from, pos + 1);
        if !sys.feed.replay {
          FreshStep(src, sys.from, pos);
          CatchupCovers(r.w, r.s, sys.base, src, sys.from, pos + 1);
        }
        NoteStore(r.w, r.s, c.cursor, h, src);
      } else {
        DropNext(r.w, r.s, h, src);
      }
    } else {
      LiveRecord(sys, f, src);
      if r.ok {
        NoteStore(r.w, r.s, c.cursor, h, src);
      } else {
        DropNext(r.w, r.s, h, src);
      }
    }
  }

  lemma {:induction false} SameCounts(w: World, s: Sink, s1: Sink, base: seq<Entry>, src: seq<Rec>, from: nat, pos: nat)
    requires from <= |src| && pos <= |src| && AllCounts(w, s, base, src, from, pos) && s1.schedd == s.schedd
    ensures AllCounts(w, s1, base, src, from, pos)
  {
    hide Held, Met;
    forall id ensures CountOk(w, s1, base, src, from, pos, id) { assert CountOk(w, s, base, src, from, pos, id); }
  }

  /** In the live tail the hub equals the source after each record. */
  lemma {:induction false} LiveRecord(sys: Sys, f: Faults, src: seq<Rec>)
    requires Inv(sys, src) && !sys.s.failed && sys.feed.Stream? && !sys.s.catchup && sys.feed.pos < |src|
    ensures var pos := sys.feed.pos;
            var r := TakeRecord(sys.w, sys.s, src[pos], f);
            && StoreOk(r.w, r.s, Max(sys.high, pos + 1), src)
            && r.s == sys.s.(appended := r.s.appended)
            && (r.ok ==> Equals(r.w.arch, r.s.schedd, src, pos + 1) && Covers(r.w.arch, r.s.schedd, src, pos + 1))
  {
    hide SyncOk, CursorOk, Prefixes;
    var pos, id := sys.feed.pos, src[sys.feed.pos].id.value;
    assert Held(sys.w.arch, sys.s.schedd, id) == SrcOf(src, pos, id);
    AppendStore(sys.w, sys.s, src, pos, sys.high);
    StoreHigher(sys.w, sys.s, sys.s, sys.high, Max(sys.high, pos + 1), src);
    if f.append {
      var w1, p := sys.w.(arch := sys.w.arch + [Entry(sys.s.schedd, src[pos])]), pos + 1;
      forall i ensures Held(w1.arch, sys.s.schedd, i) == SrcOf(src, p, i) {
        assert Held(sys.w.arch, sys.s.schedd, i) == SrcOf(src, pos, i);
        AppendCounts(sys.w, sys.s, src[pos], i);
      }
    }
  }

  lemma {:induction false} ResetInv(sys: Sys, f: Faults, src: seq<Rec>)
    requires Inv(sys, src) && !sys.s.failed && Delivers(sys, Reset(Empty), src)
    ensures Inv(Next(sys, Recv(Reset(Empty), f)), src)
  {
    hide Covers, SyncOk, Prefixes, FreshIds, AllRemaining, AllCounts;
    FlushKeeps(sys.w, sys.s, f, sys.high, src);
    var r := Flush(sys.w, sys.s, f);
    if r.ok {
      var r1 := ClearCursor(r.w, r.s, f.clear);
      ClearKeeps(r.w, r.s, f.clear, sys.high, src);
      if r1.ok {
        var s2 := StartCatchup(r1.s).(full := true);
        SameStore(r1.w, r1.s, s2, sys.high, src);
        FreshCatchup(r1.w, s2, src, 0);
      } else {
        DropNext(r1.w, r1.s, sys.high, src);
      }
    }
  }

  lemma {:induction false} SameStore(w: World, s: Sink, s1: Sink, high: nat, src: seq<Rec>)
    requires StoreOk(w, s, high, src)
    requires s1.schedd == s.schedd && s1.cur == s.cur && s1.nextCur == s.nextCur && s1.appended == s.appended
    ensures StoreOk(w, s1, high, src)
  {
    hide Covers, Prefixes;
  }

  /** A catch-up that has met nothing yet. */
  lemma {:induction false} FreshCatchup(w: World, s: Sink, src: seq<Rec>, from: nat)
    requires from <= |src| && s.remaining == map[] && !s.setLoaded
    ensures AllRemaining(s, w.arch, src, from, from) && AllCounts(w, s, w.arch, src, from, from) &&
            FreshIds(src, from, from)
  {
  }

  lemma {:induction false} SyncedInv(sys: Sys, c: Change, f: Faults, src: seq<Rec>)
    requires Inv(sys, src) && !sys.s.failed && Delivers(sys, c, src) && c.Synced?
    ensures Inv(Next(sys, Recv(c, f)), src)
    ensures Equals(Next(sys, Recv(c, f)).w.arch, sys.s.schedd, src, sys.feed.pos)
  {
    hide SyncOk, Prefixes, FreshIds, AllRemaining, AllCounts, Held, SrcOf;
    var pos := sys.feed.pos;
    if sys.s.catchup { CatchupEquals(sys, src); }
    EqualsCovers(sys.w.arch, sys.s.schedd, src, pos);
    var s1 := EndCatchup(sys.s);
    SameStore(sys.w, sys.s, s1, sys.high, src);
    var s2 := NoteCursor(s1, c.cursor);
    NoteStore(sys.w, s1, c.cursor, sys.high, src);
    FlushKeeps(sys.w, s2, f, sys.high, src);
  }

  lemma {:induction false} EqualsCovers(a: seq<Entry>, schedd: string, src: seq<Rec>, n: nat)
    requires n <= |src| && Equals(a, schedd, src, n)
    ensures Covers(a, schedd, src, n)
  {
    hide SrcOf, Held;
    forall id ensures |SrcOf(src, n, id)| <= |Held(a, schedd, id)| { assert Held(a, schedd, id) == SrcOf(src, n, id); }
  }

  lemma {:induction false} FlushInv(sys: Sys, f: Faults, src: seq<Rec>)
    requires Inv(sys, src) && Allowed(sys, FlushNow(f), src)
    ensures Inv(Next(sys, FlushNow(f)), src)
  {
    hide Covers, SyncOk, CursorOk, Prefixes, FreshIds, AllRemaining, AllCounts, Equals;
    if !sys.s.failed {
      FlushKeeps(sys.w, sys.s, f, sys.high, src);
      var r := Flush(sys.w, sys.s, f);
      if r.ok && sys.feed.Stream? && sys.s.catchup {
        SameRemaining(sys.s, r.s, sys.base, src, sys.from, sys.feed.pos);
        CountsAgain(sys.w, sys.s, r.w, r.s, sys.base, src, sys.from, sys.feed.pos);
      }
    }
  }

  lemma {:induction false} CountsAgain(w: World, s: Sink, w1: World, s1: Sink, base: seq<Entry>, src: seq<Rec>,
                                       from: nat, pos: nat)
    requires from <= |src| && pos <= |src| && AllCounts(w, s, base, src, from, pos) && s1.schedd == s.schedd
    requires forall id :: |Held(w1.arch, s.schedd, id)| == |Held(w.arch, s.schedd, id)|
    ensures AllCounts(w1, s1, base, src, from, pos)
  {
    hide Held, Met;
    forall id ensures CountOk(w1, s1, base, src, from, pos, id) { assert CountOk(w, s, base, src, from, pos, id); }
  }

  lemma {:induction false} SessionInv(sys: Sys, a: Action, src: seq<Rec>)
    requires Inv(sys, src) && Allowed(sys, a, src) && (a.Begin? || a.End?)
    ensures Inv(Next(sys, a), src)
  {
    hide Covers, SyncOk, Prefixes, AllRemaining, AllCounts, FreshIds, Equals;
    var s1 := Next(sys, a).s;
    DropNext(sys.w, sys.s, sys.high, src);
    SameStore(sys.w, if a.Begin? then sys.s.(nextCur := Empty) else sys.s, s1, sys.high, src);
    if a.Begin? && a.resume && sys.s.cur.At? {
      FreshCatchup(sys.w, s1, src, sys.s.cur.pos);
      SyncCovers(sys.w, sys.s, src, sys.s.cur.pos);
    }
  }

  lemma {:induction false} CrashInv(sys: Sys, kept: nat, src: seq<Rec>)
    requires Inv(sys, src) && Allowed(sys, Crash(kept), src)
    ensures Inv(Next(sys, Crash(kept)), src)
  {
    hide SrcOf, Held;
    var a := sys.w.arch[..kept];
    assert a[..kept] == a && a[..sys.w.synced] == sys.w.arch[..sys.w.synced];
    forall id ensures Held(a, sys.s.schedd, id) <= SrcOf(src, sys.high, id) {
      HeldPrefix(sys.w.arch, kept, sys.s.schedd, id);
      assert Held(sys.w.arch, sys.s.schedd, id) <= SrcOf(src, sys.high, id);
    }
    if sys.w.durable.At? {
      SyncCovers(sys.w.(arch := a), sys.s, src, sys.w.durable.pos);
    }
  }

  lemma {:induction false} OthersHeld(sys: Sys, e: Entry)
    requires e.schedd != sys.s.schedd
    ensures forall id :: Held(sys.w.arch + [e], sys.s.schedd, id) == Held(sys.w.arch, sys.s.schedd, id)
  {
    forall id ensures Held(sys.w.arch + [e], sys.s.schedd, id) == Held(sys.w.arch, sys.s.schedd, id) {
      HeldSnoc(sys.w.arch, e, sys.s.schedd, id);
    }
  }

  lemma {:induction false} OthersInv(sys: Sys, e: Entry, src: seq<Rec>)
    requires Inv(sys, src) && Allowed(sys, Others(e), src)
    ensures Inv(Next(sys, Others(e)), src)
  {
    hide SrcOf, Held, AllRemaining, AllCounts, FreshIds;
    OthersHeld(sys, e);
    var w1 := sys.w.(arch := sys.w.arch + [e]);
    assert w1.arch[..w1.synced] == sys.w.arch[..w1.synced];
    if sys.feed.Stream? && sys.s.catchup && !sys.s.failed {
      CountsAgain(sys.w, sys.s, w1, sys.s, sys.base, src, sys.from, sys.feed.pos);
    }
  }

  lemma {:induction false} OthersSyncInv(sys: Sys, n: nat, src: seq<Rec>)
    requires Inv(sys, src) && Allowed(sys, OthersSync(n), src)
    ensures Inv(Next(sys, OthersSync(n)), src)
  {
    hide SrcOf, Held, Prefixes, AllRemaining, AllCounts, FreshIds, Equals;
    var a := sys.w.arch[..n];
    assert a[..sys.w.synced] == sys.w.arch[..sys.w.synced];
    if sys.s.cur.At? { SyncCovers(sys.w.(arch := a), sys.s, src, sys.s.cur.pos); }
    if sys.w.durable.At? { SyncCovers(sys.w.(arch := a), sys.s, src, sys.w.durable.pos); }
    forall id ensures |Held(sys.w.arch[..sys.w.synced], sys.s.schedd, id)| <= |Held(a, sys.s.schedd,
            id)| <= |Held(sys.w.arch, sys.s.schedd, id)| {
      HeldPrefix(a, sys.w.synced, sys.s.schedd, id);
      HeldPrefix(sys.w.arch, n, sys.s.schedd, id);
    }
    if sys.feed.Stream? && sys.s.catchup && !sys.s.failed {
      CountsAgain(sys.w, sys.s, sys.w.(synced := n), sys.s, sys.base, src, sys.from, sys.feed.pos);
    }
  }

  /** Every action keeps the invariant, whatever fails. */
  lemma {:induction false} StepInv(sys: Sys, a: Action, src: seq<Rec>)
    requires Inv(sys, src) && Allowed(sys, a, src)
    ensures Inv(Next(sys, a), src)
  {
    hide StoreOk, FeedInv, Delivers, ApplyInner;
    match a {
      case Begin(_) => SessionInv(sys, a, src);
      case End => SessionInv(sys, a, src);
      case FlushNow(f) => FlushInv(sys, f, src);
      case Crash(kept) => CrashInv(sys, kept, src);
      case Others(e) => OthersInv(sys, e, src);
      case OthersSync(n) => OthersSyncInv(sys, n, src);
      case Recv(c, f) => if !sys.s.failed { RecvInv(sys, c, f, src); }
    }
  }

  lemma {:induction false} RecvInv(sys: Sys, c: Change, f: Faults, src: seq<Rec>)
    requires Inv(sys, src) && !sys.s.failed && Delivers(sys, c, src)
    ensures Inv(Next(sys, Recv(c, f)), src)
  {
    hide Inv, Next;
    match c {
      case Upsert(_, _) => RecordInv(sys, c, f, src);
      case Reset(_) => ResetInv(sys, f, src);
      case Synced(_) => SyncedInv(sys, c, f, src);
      case Other(_) =>
    }
  }
}
