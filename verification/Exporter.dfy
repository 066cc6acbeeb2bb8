/** The Kafka exporter's session (kafkasync/exporter.go) against a topic read last-write-wins. */
module Exporter {
  import opened Text

  /** value is None on a tombstone. */
  datatype Rec = Rec(key: string, value: Option<string>, ver: nat)

  type Topic = seq<Rec>

  /** What a reader of the topic holds: each key's last record, unless that is a tombstone. */
  function Live(topic: Topic): map<string, Rec> {
    if topic == [] then map[]
    else
      var r := topic[|topic| - 1];
      var m := Live(topic[..|topic| - 1]);
      if r.value.Some? then m[r.key := r] else m - {r.key}
  }

  /** versions is KeyVersions; pending and gone are the queued upserts and tombstones. */
  datatype Session = Session(topic: Topic, exportSeq: nat, versions: map<string, nat>, batch: seq<Rec>,
                             pending: map<string, nat>,
                             gone: set<string>, inReset: bool, resetSeen: set<string>, batchSize: nat)

  /** The next change, or a tick. A Synced carries the order the sweep visits its keys in. */
  datatype Event = Upsert(key: string, ad: string) | Delete(key: string) | Reset | Synced(order: seq<string>) | Tick

  /** What the brokers do with the next batch: acknowledge it, or keep some of it and fail; and whether the
      state is then stored. */
  datatype Fault = Fault(acked: bool, kept: nat, stored: bool)

  datatype Done = Done(s: Session, ok: bool)

  // ---------------------------------------------------------------------------------------
  // Steps.

  function Produce(s: Session, f: Fault): Done {
    if s.batch == [] then Done(s, true)
    else if !f.acked then Done(s.(topic := s.topic + s.batch[..if f.kept < |s.batch| then f.kept else |s.batch|]),
                               false)
    else
      Done(s.(topic := s.topic + s.batch, versions := (s.versions + s.pending) - s.gone, batch := [], pending := map[],
              gone := {}), true)
  }

  function Checkpoint(s: Session, f: Fault): Done {
    var d := Produce(s, f);
    if !d.ok then d else Done(d.s, f.stored)
  }

  function MaybeFlush(s: Session, f: Fault): Done {
    if |s.batch| < s.batchSize then Done(s, true)
    else if s.inReset then Produce(s, f)
    else Checkpoint(s, f)
  }

  function QueueUpsert(s: Session, key: string, ad: string): Session {
    s.(exportSeq := s.exportSeq + 1, batch := s.batch + [Rec(key, Some(ad), s.exportSeq)],
       pending := s.pending[key := s.exportSeq],
       gone := s.gone - {key}, resetSeen := if s.inReset then s.resetSeen + {key} else s.resetSeen)
  }

  function QueueDelete(s: Session, key: string): Session {
    s.(exportSeq := s.exportSeq + 1, batch := s.batch + [Rec(key, None, s.exportSeq)], pending := s.pending - {key},
       gone := s.gone + {key})
  }

  /** A swept key's tombstone; the queued upserts are left as they are. */
  function QueueTombstone(s: Session, key: string): Session {
    s.(exportSeq := s.exportSeq + 1, batch := s.batch + [Rec(key, None, s.exportSeq)], gone := s.gone + {key})
  }

  function StartReset(s: Session): Session {
    s.(inReset := true, resetSeen := {}, batch := [], pending := map[], gone := {})
  }

  function Sweep(s: Session, order: seq<string>): Session {
    if order == [] then s else QueueTombstone(Sweep(s, order[..|order| - 1]), order[|order| - 1])
  }

  function SweepKeys(s: Session): set<string> { s.versions.Keys - s.resetSeen }

  function Step(s: Session, e: Event, f: Fault): Done {
    match e
    case Upsert(key, ad) => MaybeFlush(QueueUpsert(s, key, ad), f)
    case Delete(key) => MaybeFlush(QueueDelete(s, key), f)
    case Reset => Done(StartReset(s), true)
    case Synced(order) =>
      var d := Checkpoint(if s.inReset then Sweep(s, order) else s, f);
      if d.ok then Done(d.s.(inReset := false, resetSeen := {}), true) else d
    case Tick =>
      if s.inReset then (var d := Produce(s, f); if d.ok then Done(d.s, f.stored) else d) else Checkpoint(s, f)
  }

  /** The sweep visits each key it has to, once. */
  ghost predicate Legal(s: Session, e: Event) {
    e.Synced? && s.inReset ==>
      && (forall k :: k in e.order <==> k in SweepKeys(s))
      && forall i, j :: 0 <= i < j < |e.order| ==> e.order[i] != e.order[j]
  }

  // ---------------------------------------------------------------------------------------
  // KeyVersions.

  function Versions(topic: Topic): map<string, nat> { map k | k in Live(topic) :: Live(topic)[k].ver }

  /** KeyVersions is the topic's live keys, and with the queued changes folded in, the topic's with the
      queue appended. */
  ghost predicate Exact(s: Session) {
    && s.versions == Versions(s.topic)
    && (s.versions + s.pending) - s.gone == Versions(s.topic + s.batch)
    && s.pending.Keys !! s.gone
    && (s.inReset ==> s.pending.Keys <= s.resetSeen)
  }

  lemma {:induction false} LiveSnoc(topic: Topic, r: Rec)
    ensures Live(topic + [r]) == if r.value.Some? then Live(topic)[r.key := r] else Live(topic) - {r.key}
  {
    assert (topic + [r])[..|topic|] == topic;
  }

  lemma {:induction false} VersionsSnoc(topic: Topic, r: Rec)
    ensures Versions(topic + [r]) == if r.value.Some? then Versions(topic)[r.key := r.ver]
            else Versions(topic) - {r.key}
  {
    hide Live;
    LiveSnoc(topic, r);
  }

  lemma {:induction false} QueueKeepsExact(s: Session, r: Rec)
    requires Exact(s)
    ensures r.value.Some? ==>
            (s.versions + s.pending[r.key := r.ver]) - (s.gone - {r.key}) == Versions(s.topic + (s.batch + [r]))
    ensures r.value.None? ==>
            (s.versions + (s.pending - {r.key})) - (s.gone + {r.key}) == Versions(s.topic + (s.batch + [r]))
    ensures r.value.None? && r.key !in s.pending ==>
            (s.versions + s.pending) - (s.gone + {r.key}) == Versions(s.topic + (s.batch + [r]))
  {
    hide Versions;
    VersionsSnoc(s.topic + s.batch, r);
    Assoc(s.topic, s.batch, [r]);
  }

  lemma {:induction false} ProduceExact(s: Session, f: Fault)
    requires Exact(s)
    ensures Produce(s, f).ok ==> Exact(Produce(s, f).s)
  {
    hide Versions;
    assert (s.topic + s.batch) + [] == s.topic + s.batch;
    assert s.topic + [] == s.topic;
  }

  lemma {:induction false} UpsertExact(s: Session, key: string, ad: string)
    requires Exact(s)
    ensures Exact(QueueUpsert(s, key, ad))
  {
    hide Versions;
    QueueKeepsExact(s, Rec(key, Some(ad), s.exportSeq));
  }

  lemma {:induction false} DeleteExact(s: Session, key: string)
    requires Exact(s)
    ensures Exact(QueueDelete(s, key))
  {
    hide Versions;
    QueueKeepsExact(s, Rec(key, None, s.exportSeq));
  }

  lemma {:induction false} SweepShape(s: Session, order: seq<string>)
    ensures var t := Sweep(s, order);
            t.pending == s.pending && t.versions == s.versions && t.topic == s.topic && t.inReset == s.inReset &&
                t.resetSeen == s.resetSeen
  {
    if order != [] { SweepShape(s, order[..|order| - 1]); }
  }

  lemma {:induction false} SweepExact(s: Session, order: seq<string>)
    requires Exact(s) && s.inReset && forall k :: k in order ==> k !in s.resetSeen
    ensures Exact(Sweep(s, order))
  {
    hide Versions;
    if order != [] {
      var n := |order| - 1;
      SweepExact(s, order[..n]);
      SweepShape(s, order[..n]);
      var t := Sweep(s, order[..n]);
      assert order[n] in order;
      QueueKeepsExact(t, Rec(order[n], None, t.exportSeq));
    }
  }

  lemma {:induction false} ResetExact(s: Session)
    requires Exact(s)
    ensures Exact(StartReset(s))
  {
    hide Versions;
    assert s.topic + [] == s.topic;
  }

  /** Every step of a session keeps KeyVersions equal to the topic's live keys and last versions. */
  lemma {:induction false} StepExact(s: Session, e: Event, f: Fault)
    requires Exact(s) && Legal(s, e) && Step(s, e, f).ok
    ensures Exact(Step(s, e, f).s)
  {
    hide Exact, Produce;
    match e {
      case Upsert(key, ad) => UpsertExact(s, key, ad); ProduceExact(QueueUpsert(s, key, ad), f);
      case Delete(key) => DeleteExact(s, key); ProduceExact(QueueDelete(s, key), f);
      case Reset => ResetExact(s);
      case Synced(order) =>
        if s.inReset { SweepExact(s, order); }
        var t := if s.inReset then Sweep(s, order) else s;
        ProduceExact(t, f);
        LeaveReset(Produce(t, f).s);
      case Tick => ProduceExact(s, f);
    }
  }

  lemma {:induction false} LeaveReset(s: Session)
    ensures Exact(s) ==> Exact(s.(inReset := false, resetSeen := {}))
  {
  }

  // ---------------------------------------------------------------------------------------
  // What the topic says at Synced.

  /** The source as the events of a replay tell it. */
  function Replayed(view: map<string, string>, e: Event): map<string, string> {
    match e
    case Upsert(key, ad) => view[key := ad]
    case Delete(key) => view - {key}
    case Reset => map[]
    case _ => view
  }

  function Values(topic: Topic): map<string, string> {
    map k | k in Live(topic) && Live(topic)[k].value.Some? :: Live(topic)[k].value.value
  }

  lemma {:induction false} ValuesSnoc(topic: Topic, r: Rec)
    ensures Values(topic + [r]) == if r.value.Some? then Values(topic)[r.key := r.value.value]
            else Values(topic) - {r.key}
  {
    hide Live;
    LiveSnoc(topic, r);
  }

  lemma {:induction false} LiveHasValues(topic: Topic)
    ensures Values(topic).Keys == Live(topic).Keys == Versions(topic).Keys
  {
    if topic != [] { LiveHasValues(topic[..|topic| - 1]); }
  }

  function Lookup(m: map<string, string>, k: string): Option<string> { if k in m then Some(m[k]) else None }

  /** Mid-replay: the topic with the queue agrees with the replay on every key the replay named, and the
      replay holds only keys it named. */
  ghost predicate Following(s: Session, view: map<string, string>, named: set<string>) {
    && s.resetSeen <= named && view.Keys <= s.resetSeen
    && (forall k :: k in named ==> Lookup(Values(s.topic + s.batch), k) == Lookup(view, k))
    && (forall r :: r in s.batch ==> r.key in named)
  }

  function Named(named: set<string>, e: Event): set<string> {
    match e
    case Upsert(key, _) => named + {key}
    case Delete(key) => named + {key}
    case _ => named
  }

  lemma {:induction false} QueueFollows(s: Session, view: map<string, string>, named: set<string>, e: Event, t: Session)
    requires s.inReset && Following(s, view, named)
    requires (e.Upsert? && t == QueueUpsert(s, e.key, e.ad)) || (e.Delete? && t == QueueDelete(s, e.key))
    ensures Following(t, Replayed(view, e), Named(named, e)) && t.inReset
  {
    hide Values;
    var r := if e.Upsert? then Rec(e.key, Some(e.ad), s.exportSeq) else Rec(e.key, None, s.exportSeq);
    ValuesSnoc(s.topic + s.batch, r);
    Assoc(s.topic, s.batch, [r]);
    assert t.batch == s.batch + [r];
  }

  lemma {:induction false} ProduceFollows(s: Session, view: map<string, string>, named: set<string>, f: Fault)
    requires Following(s, view, named) && Produce(s, f).ok
    ensures Following(Produce(s, f).s, view, named)
  {
    hide Values;
    assert (s.topic + s.batch) + [] == s.topic + s.batch;
  }

  /** Each change of a replay is followed. */
  lemma {:induction false} StepFollows(s: Session, view: map<string, string>, named: set<string>, e: Event, f: Fault)
    requires s.inReset && Following(s, view, named) && Step(s, e, f).ok && (e.Upsert? || e.Delete? || e.Tick?)
    ensures Following(Step(s, e, f).s, Replayed(view, e), Named(named, e)) && Step(s, e, f).s.inReset
  {
    hide Following, Produce;
    ProduceShape(s, f);
    match e {
      case Upsert(key, ad) =>
        var t := QueueUpsert(s, key, ad);
        QueueFollows(s, view, named, e, t);
        ProduceShape(t, f);
        if |t.batch| >= t.batchSize { ProduceFollows(t, Replayed(view, e), Named(named, e), f); }
      case Delete(key) =>
        var t := QueueDelete(s, key);
        QueueFollows(s, view, named, e, t);
        ProduceShape(t, f);
        if |t.batch| >= t.batchSize { ProduceFollows(t, Replayed(view, e), Named(named, e), f); }
      case _ => ProduceFollows(s, view, named, f);
    }
  }

  lemma {:induction false} ProduceShape(s: Session, f: Fault)
    ensures Produce(s, f).s.inReset == s.inReset
  {
  }

  lemma {:induction false} ResetFollows(s: Session)
    ensures Following(StartReset(s), map[], {}) && StartReset(s).inReset
  {
  }

  lemma {:induction false} SweepValues(s: Session, order: seq<string>)
    ensures Values(Sweep(s, order).topic + Sweep(s, order).batch) == Values(s.topic + s.batch) - (set k | k in order)
  {
    hide Values;
    if order == [] {
      assert (set k | k in order) == {};
    } else {
      var n := |order| - 1;
      SweepValues(s, order[..n]);
      SweepShape(s, order[..n]);
      var t := Sweep(s, order[..n]);
      var r := Rec(order[n], None, t.exportSeq);
      ValuesSnoc(t.topic + t.batch, r);
      Assoc(t.topic, t.batch, [r]);
      assert (set k | k in order) == (set k | k in order[..n]) +
             {order[n]} by { assert order == order[..n] + [order[n]]; }
    }
  }

  /** At the Synced that ends a replay, the topic read last-write-wins is the replayed source, deletions
      included, exactly when KeyVersions or the replay named every live key the topic had. */
  lemma {:induction false} SyncedIff(s: Session, view: map<string, string>, named: set<string>, order: seq<string>,
                                     f: Fault)
    requires s.inReset && Following(s, view, named) && Legal(s, Synced(order)) && Step(s, Synced(order), f).ok
    ensures Values(Step(s, Synced(order), f).s.topic) == view <==>
            forall k :: k in Live(s.topic) ==> k in s.versions || k in named
  {
    hide Values, Live;
    SweepValues(s, order);
    SweepShape(s, order);
    var t := Sweep(s, order);
    var after := Step(s, Synced(order), f).s.topic;
    assert after == t.topic + t.batch by { assert t.topic + [] == t.topic; }
    var swept := set k | k in order;
    assert swept == SweepKeys(s);
    LiveHasValues(s.topic);
    forall k ensures Lookup(Values(after), k) == Lookup(view, k) <==>
        (k in Live(s.topic) ==> k in s.versions || k in named) {
      if k in named {
        assert k in swept ==> k !in view;
      } else {
        Untouched(s.topic, s.batch, k);
      }
    }
    if Values(after) != view && forall k :: Lookup(Values(after), k) == Lookup(view, k) {
      SameMap(Values(after), view);
    }
  }

  lemma {:induction false} SameMap(a: map<string, string>, b: map<string, string>)
    requires forall k :: Lookup(a, k) == Lookup(b, k)
    ensures a == b
  {
    forall k ensures k in a <==> k in b { assert Lookup(a, k) == Lookup(b, k); }
    forall k | k in a ensures a[k] == b[k] { assert Lookup(a, k) == Lookup(b, k); }
  }

  lemma {:induction false} Untouched(topic: Topic, batch: seq<Rec>, k: string)
    requires forall r :: r in batch ==> r.key != k
    ensures Lookup(Values(topic + batch), k) == Lookup(Values(topic), k)
  {
    hide Values;
    if batch == [] {
      assert topic + batch == topic;
    } else {
      var n := |batch| - 1;
      Untouched(topic, batch[..n], k);
      assert batch[n] in batch;
      ValuesSnoc(topic + batch[..n], batch[n]);
      assert topic + batch == (topic + batch[..n]) + [batch[n]];
    }
  }

  // ---------------------------------------------------------------------------------------
  // A whole replay.

  function RunSteps(s: Session, es: seq<Event>, fs: seq<Fault>): Done
    requires |fs| == |es|
  {
    if es == [] then Done(s, true)
    else
      var n := |es| - 1;
      var d := RunSteps(s, es[..n], fs[..n]);
      if d.ok then Step(d.s, es[n], fs[n]) else d
  }

  function Source(es: seq<Event>): map<string, string> {
    if es == [] then map[] else Replayed(Source(es[..|es| - 1]), es[|es| - 1])
  }

  function AllNamed(es: seq<Event>): set<string> {
    if es == [] then {} else Named(AllNamed(es[..|es| - 1]), es[|es| - 1])
  }

  ghost predicate Replay(es: seq<Event>) { forall i :: 0 <= i < |es| ==> es[i].Upsert? || es[i].Delete? || es[i].Tick? }

  lemma {:induction false} ReplayKeeps(s: Session, es: seq<Event>, fs: seq<Fault>)
    requires Exact(s) && Replay(es) && |fs| == |es| && RunSteps(StartReset(s), es, fs).ok
    ensures var t := RunSteps(StartReset(s), es, fs).s;
            Exact(t) && t.inReset && Following(t, Source(es), AllNamed(es))
  {
    hide Exact, Following, Step;
    if es == [] {
      ResetExact(s);
      ResetFollows(s);
    } else {
      var n := |es| - 1;
      ReplayKeeps(s, es[..n], fs[..n]);
      var t := RunSteps(StartReset(s), es[..n], fs[..n]).s;
      StepExact(t, es[n], fs[n]);
      StepFollows(t, Source(es[..n]), AllNamed(es[..n]), es[n], fs[n]);
    }
  }

  /** A session whose KeyVersions names the topic's live keys when a Reset arrives leaves, at the Synced,
      a topic that reads as the replayed source: nothing missing, nothing stale, no phantom. */
  lemma {:induction false} ReplayHeals(s: Session, es: seq<Event>, fs: seq<Fault>, order: seq<string>, f: Fault)
    requires Exact(s) && Replay(es) && |fs| == |es| && RunSteps(StartReset(s), es, fs).ok
    requires var t := RunSteps(StartReset(s), es, fs).s; Legal(t, Synced(order)) && Step(t, Synced(order), f).ok
    ensures var end := Step(RunSteps(StartReset(s), es, fs).s, Synced(order), f).s;
            Values(end.topic) == Source(es) && Exact(end)
  {
    hide Values, Live, Source, RunSteps, Step, Following;
    ReplayKeeps(s, es, fs);
    var t := RunSteps(StartReset(s), es, fs).s;
    StepExact(t, Synced(order), f);
    SyncedIff(t, Source(es), AllNamed(es), order, f);
    ExactNamesLive(t);
  }

  lemma {:induction false} ExactNamesLive(s: Session)
    requires Exact(s)
    ensures forall k :: k in Live(s.topic) ==> k in s.versions
  {
    hide Live;
  }

  // ---------------------------------------------------------------------------------------
  // A whole session.

  function SourceFrom(view: map<string, string>, es: seq<Event>): map<string, string> {
    if es == [] then view else Replayed(SourceFrom(view, es[..|es| - 1]), es[|es| - 1])
  }

  /** Every step of the run is legal where it is taken. */
  ghost predicate LegalRun(s: Session, es: seq<Event>, fs: seq<Fault>)
    requires |fs| == |es|
  {
    if es == [] then true
    else
      var n := |es| - 1;
      LegalRun(s, es[..n], fs[..n]) && Legal(RunSteps(s, es[..n], fs[..n]).s, es[n])
  }

  /** Outside a Reset the topic with the queue is the source as told so far; inside one it follows the replay. */
  ghost predicate Tracks(s: Session, view: map<string, string>) {
    && Exact(s)
    && if s.inReset then exists named :: Following(s, view, named) else Values(s.topic + s.batch) == view
  }

  lemma {:induction false} ProduceKeeps(s: Session, f: Fault)
    requires Produce(s, f).ok
    ensures var t := Produce(s, f).s; t.topic + t.batch == s.topic + s.batch && t.batch == [] && t.inReset == s.inReset
  {
    assert (s.topic + s.batch) + [] == s.topic + s.batch;
  }

  /** A change outside a Reset goes into the topic or the queue. */
  lemma {:induction false} LiveTracks(s: Session, view: map<string, string>, e: Event, f: Fault)
    requires !s.inReset && Values(s.topic + s.batch) == view && Step(s, e, f).ok && !e.Reset?
    ensures var t := Step(s, e, f).s; !t.inReset && Values(t.topic + t.batch) == Replayed(view, e)
  {
    hide Values, Produce;
    match e {
      case Upsert(key, ad) =>
        var q, r := QueueUpsert(s, key, ad), Rec(key, Some(ad), s.exportSeq);
        ValuesSnoc(s.topic + s.batch, r);
        Assoc(s.topic, s.batch, [r]);
        if |q.batch| >= q.batchSize { ProduceKeeps(q, f); }
      case Delete(key) =>
        var q, r := QueueDelete(s, key), Rec(key, None, s.exportSeq);
        ValuesSnoc(s.topic + s.batch, r);
        Assoc(s.topic, s.batch, [r]);
        if |q.batch| >= q.batchSize { ProduceKeeps(q, f); }
      case _ => ProduceKeeps(s, f);
    }
  }

  /** The Synced of a replay leaves nothing queued. */
  lemma {:induction false} SyncedTracks(s: Session, view: map<string, string>, order: seq<string>, f: Fault)
    requires s.inReset && Tracks(s, view) && Legal(s, Synced(order)) && Step(s, Synced(order), f).ok
    ensures var t := Step(s, Synced(order), f).s; !t.inReset && t.batch == [] && Values(t.topic + t.batch) == view
  {
    hide Values, Following, Produce, Exact;
    var named :| Following(s, view, named);
    SyncedIff(s, view, named, order, f);
    ExactNamesLive(s);
    ProduceKeeps(Sweep(s, order), f);
    var t := Step(s, Synced(order), f).s;
    assert t.topic + [] == t.topic;
  }

  lemma {:induction false} StepTracks(s: Session, view: map<string, string>, e: Event, f: Fault)
    requires Tracks(s, view) && Legal(s, e) && Step(s, e, f).ok
    ensures Tracks(Step(s, e, f).s, Replayed(view, e))
  {
    hide Exact, Following, Values, Step, Legal;
    StepExact(s, e, f);
    if e.Reset? {
      ResetFollows(s);
      assert Step(s, e, f).s == StartReset(s) by { ResetStep(s, f); }
    } else if !s.inReset {
      LiveTracks(s, view, e, f);
    } else if e.Synced? {
      SyncedTracks(s, view, e.order, f);
    } else {
      var named :| Following(s, view, named);
      StepFollows(s, view, named, e, f);
    }
  }

  lemma {:induction false} ResetStep(s: Session, f: Fault)
    ensures Step(s, Reset, f).s == StartReset(s)
  {
  }

  /** Any session that starts knowing the topic's live keys and has no call refused: outside a Reset the topic
      with the queue reads as the source the events told, through any number of replays, and at a Synced the
      topic alone does; KeyVersions stays exact throughout. */
  lemma {:induction false} SessionExact(s: Session, es: seq<Event>, fs: seq<Fault>)
    requires Exact(s) && !s.inReset && |fs| == |es| && LegalRun(s, es, fs) && RunSteps(s, es, fs).ok
    ensures var t, view := RunSteps(s, es, fs).s, SourceFrom(Values(s.topic + s.batch), es);
            && Exact(t) && (!t.inReset ==> Values(t.topic + t.batch) == view)
            && (es != [] && es[|es| - 1].Synced? ==> Values(t.topic) == view)
  {
    hide Exact, Values, Step, Legal;
    SessionTracks(s, es, fs);
    var t := RunSteps(s, es, fs).s;
    if es != [] && es[|es| - 1].Synced? {
      var n := |es| - 1;
      SyncedSettles(RunSteps(s, es[..n], fs[..n]).s, es[n].order, fs[n]);
      assert t.topic + [] == t.topic;
    }
  }

  lemma {:induction false} SyncedSettles(s: Session, order: seq<string>, f: Fault)
    requires Step(s, Synced(order), f).ok
    ensures var t := Step(s, Synced(order), f).s; t.batch == [] && !t.inReset
  {
    hide Produce;
    var q := if s.inReset then Sweep(s, order) else s;
    ProduceKeeps(q, f);
  }

  lemma {:induction false} SessionTracks(s: Session, es: seq<Event>, fs: seq<Fault>)
    requires Exact(s) && !s.inReset && |fs| == |es| && LegalRun(s, es, fs) && RunSteps(s, es, fs).ok
    ensures Tracks(RunSteps(s, es, fs).s, SourceFrom(Values(s.topic + s.batch), es))
  {
    hide Exact, Following, Values, Step, Legal;
    if es != [] {
      var n := |es| - 1;
      SessionTracks(s, es[..n], fs[..n]);
      StepTracks(RunSteps(s, es[..n], fs[..n]).s, SourceFrom(Values(s.topic + s.batch), es[..n]), es[n], fs[n]);
    }
  }

  // ---------------------------------------------------------------------------------------
  // Versions.

  /** Versions rise strictly, from lo on and below hi. */
  predicate Rising(rs: seq<Rec>, lo: nat, hi: nat) {
    && (forall i :: 0 <= i < |rs| ==> lo <= rs[i].ver < hi)
    && forall i, j :: 0 <= i < j < |rs| ==> rs[i].ver < rs[j].ver
  }

  /** The records from position b of the topic on, the queue after them. */
  function Sent(s: Session, b: nat): seq<Rec>
    requires b <= |s.topic|
  {
    s.topic[b..] + s.batch
  }

  /** What every step keeps, from a session's start at position b and version lo. */
  predicate RisingFrom(s: Session, b: nat, lo: nat) { b <= |s.topic| && Rising(Sent(s, b), lo, s.exportSeq) }

  lemma {:induction false} ProduceRises(s: Session, f: Fault, b: nat, lo: nat)
    requires RisingFrom(s, b, lo)
    ensures var d := Produce(s, f);
            && b <= |d.s.topic| && Rising(d.s.topic[b..], lo, d.s.exportSeq) && d.s.exportSeq == s.exportSeq
            && s.topic <= d.s.topic && (d.ok ==> RisingFrom(d.s, b, lo))
  {
    var d := Produce(s, f);
    if s.batch != [] {
      var n := if f.acked then |s.batch| else if f.kept < |s.batch| then f.kept else |s.batch|;
      assert d.s.topic == s.topic + s.batch[..n];
      assert d.s.topic[b..] == Sent(s, b)[..|s.topic| - b + n];
      assert d.ok ==> Sent(d.s, b) == d.s.topic[b..];
    } else {
      assert d.s.topic[b..] == Sent(s, b)[..|s.topic| - b];
    }
  }

  /** Queueing one record under the next version. */
  lemma {:induction false} QueueRises(s: Session, t: Session, r: Rec, b: nat, lo: nat)
    requires RisingFrom(s, b, lo) && lo <= s.exportSeq && t.topic == s.topic && t.batch == s.batch + [r]
    requires r.ver == s.exportSeq && t.exportSeq == s.exportSeq + 1
    ensures RisingFrom(t, b, lo)
  {
    assert Sent(t, b) == Sent(s, b) + [r];
  }

  lemma {:induction false} SweepRises(s: Session, order: seq<string>, b: nat, lo: nat)
    requires RisingFrom(s, b, lo) && lo <= s.exportSeq
    ensures var t := Sweep(s, order); RisingFrom(t, b, lo) && s.exportSeq <= t.exportSeq && t.topic == s.topic
  {
    hide RisingFrom;
    if order != [] {
      var n := |order| - 1;
      SweepRises(s, order[..n], b, lo);
      var t := Sweep(s, order[..n]);
      QueueRises(t, QueueTombstone(t, order[n]), Rec(order[n], None, t.exportSeq), b, lo);
    }
  }

  lemma {:induction false} StepRises(s: Session, e: Event, f: Fault, b: nat, lo: nat)
    requires RisingFrom(s, b, lo) && lo <= s.exportSeq
    ensures var d := Step(s, e, f);
            && b <= |d.s.topic| && Rising(d.s.topic[b..], lo, d.s.exportSeq) && s.exportSeq <= d.s.exportSeq
            && s.topic <= d.s.topic && (d.ok ==> RisingFrom(d.s, b, lo))
  {
    hide Produce, Sweep, Rising;
    match e {
      case Upsert(key, ad) =>
        QueueRises(s, QueueUpsert(s, key, ad), Rec(key, Some(ad), s.exportSeq), b, lo);
        ProduceRises(QueueUpsert(s, key, ad), f, b, lo);
        TopicRises(QueueUpsert(s, key, ad), b, lo);
      case Delete(key) =>
        QueueRises(s, QueueDelete(s, key), Rec(key, None, s.exportSeq), b, lo);
        ProduceRises(QueueDelete(s, key), f, b, lo);
        TopicRises(QueueDelete(s, key), b, lo);
      case Reset =>
        TopicRises(s, b, lo);
        assert Sent(StartReset(s), b) == s.topic[b..];
      case Synced(order) =>
        SweepRises(s, order, b, lo);
        ProduceRises(if s.inReset then Sweep(s, order) else s, f, b, lo);
        var d := Produce(if s.inReset then Sweep(s, order) else s, f);
        assert d.ok ==> Sent(d.s.(inReset := false, resetSeen := {}), b) == Sent(d.s, b);
      case Tick => ProduceRises(s, f, b, lo);
    }
  }

  lemma {:induction false} TopicRises(s: Session, b: nat, lo: nat)
    requires RisingFrom(s, b, lo)
    ensures Rising(s.topic[b..], lo, s.exportSeq)
  {
    assert s.topic[b..] == Sent(s, b)[..|s.topic| - b];
  }

  lemma {:induction false} RunRises(s: Session, es: seq<Event>, fs: seq<Fault>, b: nat, lo: nat)
    requires |fs| == |es| && RisingFrom(s, b, lo) && lo <= s.exportSeq
    ensures var d := RunSteps(s, es, fs);
            && b <= |d.s.topic| && Rising(d.s.topic[b..], lo, d.s.exportSeq) && s.exportSeq <= d.s.exportSeq
            && s.topic <= d.s.topic && (d.ok ==> RisingFrom(d.s, b, lo))
  {
    hide Step, Rising, RisingFrom;
    if es == [] {
      TopicRises(s, b, lo);
      assert b <= |s.topic| by { Inside(s, b, lo); }
    } else {
      var n := |es| - 1;
      RunRises(s, es[..n], fs[..n], b, lo);
      var d := RunSteps(s, es[..n], fs[..n]);
      if d.ok { StepRises(d.s, es[n], fs[n], b, lo); }
    }
  }

  lemma {:induction false} Inside(s: Session, b: nat, lo: nat)
    requires RisingFrom(s, b, lo)
    ensures b <= |s.topic|
  {
  }

  /** Whatever a session does and however it ends, what it put on the topic carries strictly rising versions, from
      the version it started at and below the one it ended at; while nothing has failed, so does what is queued
      behind. */
  lemma {:induction false} VersionsRise(s: Session, es: seq<Event>, fs: seq<Fault>)
    requires |fs| == |es| && s.batch == []
    ensures var d := RunSteps(s, es, fs);
            && s.topic <= d.s.topic
            && Rising(d.s.topic[|s.topic|..], s.exportSeq, d.s.exportSeq)
            && (d.ok ==> Rising(d.s.topic[|s.topic|..] + d.s.batch, s.exportSeq, d.s.exportSeq))
  {
    hide RunSteps;
    assert Sent(s, |s.topic|) == [];
    RunRises(s, es, fs, |s.topic|, s.exportSeq);
  }

  /** What a session holds back is always less than a batch. */
  predicate HeldBack(s: Session) { s.batch == [] || |s.batch| < s.batchSize }

  lemma {:induction false} StepHoldsBack(s: Session, e: Event, f: Fault)
    requires HeldBack(s) && Step(s, e, f).ok
    ensures HeldBack(Step(s, e, f).s)
  {
    hide Produce, Sweep;
    match e {
      case Upsert(key, ad) => ProduceEmpties(QueueUpsert(s, key, ad), f);
      case Delete(key) => ProduceEmpties(QueueDelete(s, key), f);
      case Synced(order) => ProduceEmpties(if s.inReset then Sweep(s, order) else s, f);
      case _ => ProduceEmpties(s, f);
    }
  }

  lemma {:induction false} ProduceEmpties(s: Session, f: Fault)
    ensures Produce(s, f).ok ==> Produce(s, f).s.batch == []
    ensures Produce(s, f).s.batchSize == s.batchSize
  {
  }

  lemma {:induction false} RunHoldsBack(s: Session, es: seq<Event>, fs: seq<Fault>)
    requires |fs| == |es| && HeldBack(s) && RunSteps(s, es, fs).ok
    ensures HeldBack(RunSteps(s, es, fs).s)
  {
    hide Step, HeldBack;
    if es != [] {
      var n := |es| - 1;
      RunHoldsBack(s, es[..n], fs[..n]);
      StepHoldsBack(RunSteps(s, es[..n], fs[..n]).s, es[n], fs[n]);
    }
  }

  // ---------------------------------------------------------------------------------------
  // What a consumer that keeps the highest version of each key holds.

  /** Each key's record of the highest version met, tombstones included. */
  function Highest(rs: seq<Rec>): map<string, Rec> {
    if rs == [] then map[]
    else
      var r, m := rs[|rs| - 1], Highest(rs[..|rs| - 1]);
      if r.key in m && m[r.key].ver > r.ver then m else m[r.key := r]
  }

  /** The keys it takes to be live. */
  function HighestLive(rs: seq<Rec>): map<string, Rec> {
    map k | k in Highest(rs) && Highest(rs)[k].value.Some? :: Highest(rs)[k]
  }

  lemma {:induction false} HighestIs(rs: seq<Rec>, k: string)
    ensures k in Highest(rs) <==> exists r :: r in rs && r.key == k
    ensures k in Highest(rs) ==>
              Highest(rs)[k] in rs && Highest(rs)[k].key == k &&
              forall r :: r in rs && r.key == k ==> r.ver <= Highest(rs)[k].ver
  {
    if rs != [] {
      var n := |rs| - 1;
      HighestIs(rs[..n], k);
      assert rs == rs[..n] + [rs[n]];
      assert forall r :: r in rs <==> r in rs[..n] || r == rs[n];
    }
  }

  /** On rising versions the highest is the last. */
  lemma {:induction false} LiveKey(topic: Topic, lo: nat, hi: nat, k: string)
    requires Rising(topic, lo, hi)
    ensures k in Live(topic) <==> k in Highest(topic) && Highest(topic)[k].value.Some?
    ensures k in Live(topic) ==> Live(topic)[k] == Highest(topic)[k]
  {
    if topic != [] {
      var n := |topic| - 1;
      LiveKey(topic[..n], lo, hi, k);
      LastIsHighest(topic, lo, hi);
    }
  }

  lemma {:induction false} LastIsHighest(topic: Topic, lo: nat, hi: nat)
    requires Rising(topic, lo, hi) && topic != []
    ensures var n := |topic| - 1;
            topic[n].key in Highest(topic[..n]) ==> Highest(topic[..n])[topic[n].key].ver < topic[n].ver
  {
    hide Highest;
    var n := |topic| - 1;
    HighestIs(topic[..n], topic[n].key);
    if topic[n].key in Highest(topic[..n]) {
      var i :| 0 <= i < n && topic[..n][i] == Highest(topic[..n])[topic[n].key];
      assert topic[i].ver < topic[n].ver;
    }
  }

  lemma {:induction false} LiveIsHighest(topic: Topic, lo: nat, hi: nat)
    requires Rising(topic, lo, hi)
    ensures Live(topic) == HighestLive(topic)
  {
    hide Live, Highest, Rising;
    forall k
      ensures k in Live(topic) <==> k in HighestLive(topic)
      ensures k in Live(topic) ==> Live(topic)[k] == HighestLive(topic)[k]
    {
      LiveKey(topic, lo, hi, k);
    }
  }

  lemma {:induction false} UniqueVersion(topic: Topic, lo: nat, hi: nat, x: Rec, y: Rec)
    requires Rising(topic, lo, hi) && x in topic && y in topic && x.ver == y.ver
    ensures x == y
  {
    var i :| 0 <= i < |topic| && topic[i] == x;
    var j :| 0 <= j < |topic| && topic[j] == y;
  }

  /** A consumer handed the topic's records in any order, any of them any number of times, that keeps the highest
      version of each key, ends with what the topic says. */
  lemma {:induction false} ConsumerConverges(topic: Topic, lo: nat, hi: nat, rs: seq<Rec>)
    requires Rising(topic, lo, hi) && forall r :: r in rs <==> r in topic
    ensures HighestLive(rs) == Live(topic)
  {
    hide Rising, Live, Highest;
    LiveIsHighest(topic, lo, hi);
    forall k ensures k in Highest(rs) <==> k in Highest(topic)
             ensures k in Highest(rs) ==> Highest(rs)[k] == Highest(topic)[k]
    {
      HighestIs(rs, k);
      HighestIs(topic, k);
      if k in Highest(rs) { UniqueVersion(topic, lo, hi, Highest(rs)[k], Highest(topic)[k]); }
    }
  }

  // ---------------------------------------------------------------------------------------
  // Across sessions.

  /** One session: its events and what became of each. */
  datatype Told = Told(es: seq<Event>, fs: seq<Fault>)

  /** The session met no failure and its last event stored the state. */
  ghost predicate EndsStored(s: Session, r: Told) {
    && |r.fs| == |r.es| > 0 && RunSteps(s, r.es, r.fs).ok
    && (r.es[|r.es| - 1].Synced? || r.es[|r.es| - 1].Tick?)
  }

  /** The next session: the topic as it stands, and the state as it was stored. */
  function Resumed(s: Session, batchSize: nat): Session {
    Session(s.topic, s.exportSeq, s.versions, [], map[], {}, false, {}, batchSize)
  }

  /** Sessions one after the other, each from the state the one before stored. */
  function RunSessions(s: Session, runs: seq<Told>): Session
    requires forall i :: 0 <= i < |runs| ==> |runs[i].fs| == |runs[i].es|
    decreases |runs|
  {
    if runs == [] then s else RunSessions(Resumed(RunSteps(s, runs[0].es, runs[0].fs).s, s.batchSize), runs[1..])
  }

  ghost predicate AllStored(s: Session, runs: seq<Told>)
    decreases |runs|
  {
    runs == [] ||
    (EndsStored(s, runs[0]) && AllStored(Resumed(RunSteps(s, runs[0].es, runs[0].fs).s, s.batchSize), runs[1..]))
  }

  lemma {:induction false} StoredLengths(s: Session, runs: seq<Told>)
    requires AllStored(s, runs)
    ensures forall i :: 0 <= i < |runs| ==> |runs[i].fs| == |runs[i].es|
    decreases |runs|
  {
    hide RunSteps;
    if runs != [] {
      StoredLengths(Resumed(RunSteps(s, runs[0].es, runs[0].fs).s, s.batchSize), runs[1..]);
      assert forall i :: 0 < i < |runs| ==> runs[i] == runs[1..][i - 1];
    }
  }

  /** Over any number of sessions whose state was stored, the whole topic carries strictly rising versions. */
  lemma {:induction false} SessionsRise(s: Session, runs: seq<Told>, lo: nat)
    requires s.batch == [] && lo <= s.exportSeq && Rising(s.topic, lo, s.exportSeq) && AllStored(s, runs)
    requires forall i :: 0 <= i < |runs| ==> |runs[i].fs| == |runs[i].es|
    ensures var t := RunSessions(s, runs);
            && t.batch == [] && s.topic <= t.topic && lo <= s.exportSeq <= t.exportSeq
            && Rising(t.topic, lo, t.exportSeq)
    decreases |runs|
  {
    hide RunSteps, Rising;
    if runs != [] {
      assert Sent(s, 0) == s.topic;
      RunRises(s, runs[0].es, runs[0].fs, 0, lo);
      var d := RunSteps(s, runs[0].es, runs[0].fs);
      assert d.s.topic[0..] == d.s.topic;
      SessionsRise(Resumed(d.s, s.batchSize), runs[1..], lo);
    }
  }

  function Fresh(topic: Topic, exportSeq: nat, versions: map<string, nat>): Session {
    Session(topic, exportSeq, versions, [], map[], {}, false, {}, 1)
  }

  /** A session that produced and then failed to store its state is forgotten: the next one starts from
      the stored state, reuses its version numbers, and a Reset that no longer has the key leaves it in the
      topic. */
  lemma {:induction false} LostCheckpointLeavesPhantom()
    ensures var d := Step(Fresh([], 0, map[]), Upsert("k", "a"), Fault(true, 0, false));
            var s := StartReset(Fresh(d.s.topic, 0, map[]));
            var end := Step(s, Synced([]), Fault(true, 0, true));
            !d.ok && Legal(s, Synced([])) && end.ok && Values(end.s.topic) != map[] && end.s.exportSeq == 0
            && d.s.topic == [Rec("k", Some("a"), 0)]
  {
    var s0 := Fresh([], 0, map[]);
    var q := QueueUpsert(s0, "k", "a");
    var rec := Rec("k", Some("a"), 0);
    assert q.batch == [rec];
    assert q.topic + q.batch == [rec];
    var d := Step(s0, Upsert("k", "a"), Fault(true, 0, false));
    assert d.s.topic == [rec];
    var s := StartReset(Fresh(d.s.topic, 0, map[]));
    assert Live([rec]) == map["k" := rec] by { assert [rec][..0] == []; }
    assert "k" in Values([rec]);
    assert Sweep(s, []) == s;
    assert Step(s, Synced([]), Fault(true, 0, true)).s.topic == [rec];
  }
}
