/** The exporter's session loop as it changes its batch, its pending maps and KeyVersions. */
module ExporterSession {
  import opened Text
  import E = Exporter
  import opened Exporter

  class Broker {
    var topic: Topic

    constructor (initial: Topic)
      ensures topic == initial
    {
      topic := initial;
    }
  }

  class Runner {
    const broker: Broker
    const batchSize: nat
    var exportSeq: nat
    var versions: map<string, nat>
    var batch: seq<Rec>
    var pending: map<string, nat>
    var gone: set<string>
    var inReset: bool
    var resetSeen: set<string>

    ghost function S(): Session
      reads this, broker
    {
      Session(broker.topic, exportSeq, versions, batch, pending, gone, inReset, resetSeen, batchSize)
    }

    /** A session starts from the stored state. */
    constructor (b: Broker, size: nat, seq0: nat, stored: map<string, nat>)
      ensures broker == b && S() == Session(b.topic, seq0, stored, [], map[], {}, false, {}, size)
    {
      broker, batchSize, exportSeq, versions := b, size, seq0, stored;
      batch, pending, gone, inReset, resetSeen := [], map[], {}, false, {};
    }

    method ProduceBatch(f: Fault) returns (ok: bool)
      modifies this, broker
      ensures Done(S(), ok) == Produce(old(S()), f)
    {
      if |batch| == 0 {
        return true;
      }
      if !f.acked {
        broker.topic := broker.topic + batch[..if f.kept < |batch| then f.kept else |batch|];
        return false;
      }
      broker.topic := broker.topic + batch;
      versions := FoldPending();
      batch, pending, gone := [], map[], {};
      ok := true;
    }

    /** The two loops that fold the acknowledged changes into KeyVersions. */
    method FoldPending() returns (m: map<string, nat>)
      ensures m == (versions + pending) - gone
    {
      m := versions;
      var todo := pending.Keys;
      while todo != {}
        invariant todo <= pending.Keys
        invariant m.Keys == versions.Keys + (pending.Keys - todo)
        invariant forall k :: k in m ==> m[k] == if k in pending && k !in todo then pending[k] else versions[k]
        decreases todo
      {
        var k :| k in todo;
        m := m[k := pending[k]];
        todo := todo - {k};
      }
      assert m == versions + pending;
      var drop := gone;
      while drop != {}
        invariant drop <= gone && m == (versions + pending) - (gone - drop)
        decreases drop
      {
        var k :| k in drop;
        m := m - {k};
        drop := drop - {k};
      }
    }

    method Checkpoint(f: Fault) returns (ok: bool)
      modifies this, broker
      ensures Done(S(), ok) == E.Checkpoint(old(S()), f)
    {
      hide Produce;
      ok := ProduceBatch(f);
      if !ok {
        return false;
      }
      ok := f.stored;
    }

    method MaybeFlush(f: Fault) returns (ok: bool)
      modifies this, broker
      ensures Done(S(), ok) == E.MaybeFlush(old(S()), f)
    {
      hide Produce, E.Checkpoint;
      if |batch| < batchSize {
        return true;
      }
      if inReset {
        ok := ProduceBatch(f);
      } else {
        ok := Checkpoint(f);
      }
    }

    /** The delete sweep. */
    method SweepMissing(order: seq<string>)
      modifies this
      ensures S() == Sweep(old(S()), order)
    {
      for i := 0 to |order|
        invariant S() == Sweep(old(S()), order[..i])
      {
        assert order[..i + 1][..i] == order[..i];
        var ver := exportSeq;
        exportSeq := exportSeq + 1;
        batch := batch + [Rec(order[i], None, ver)];
        gone := gone + {order[i]};
      }
      assert order[..|order|] == order;
    }

    /** One turn of the session's loop. */
    method Handle(e: Event, f: Fault) returns (ok: bool)
      modifies this, broker
      ensures Done(S(), ok) == Step(old(S()), e, f)
    {
      hide Produce, E.Checkpoint, E.MaybeFlush, Sweep;
      match e {
        case Upsert(key, ad) =>
          var ver := exportSeq;
          exportSeq, batch := exportSeq + 1, batch + [Rec(key, Some(ad), ver)];
          pending, gone := pending[key := ver], gone - {key};
          if inReset {
            resetSeen := resetSeen + {key};
          }
          ok := MaybeFlush(f);
        case Delete(key) =>
          var ver := exportSeq;
          exportSeq, batch := exportSeq + 1, batch + [Rec(key, None, ver)];
          pending, gone := pending - {key}, gone + {key};
          ok := MaybeFlush(f);
        case Reset =>
          inReset, resetSeen, batch, pending, gone := true, {}, [], map[], {};
          ok := true;
        case Synced(order) =>
          if inReset {
            SweepMissing(order);
          }
          ok := Checkpoint(f);
          if !ok {
            return false;
          }
          inReset, resetSeen := false, {};
        case Tick =>
          if inReset {
            ok := ProduceBatch(f);
            if !ok {
              return false;
            }
            ok := f.stored;
          } else {
            ok := Checkpoint(f);
          }
      }
    }
  }
}
