/** The pool object: each locked section as a method, with the leases and dials outstanding as ghosts. */
module QueuePool {
  import opened Text
  import P = ConnPool
  import opened ConnPool

  class QueueClient {
    const cap: nat
    var pool: seq<nat>
    var inUse: map<nat, nat>
    var idleSince: map<nat, int>
    var dialing: nat
    var poolGen: nat
    var ready: bool
    var growAfter: int
    var growBackoff: int
    var dead: set<nat>
    ghost var leases: multiset<nat>
    ghost var flights: seq<nat>
    ghost var sup: Phase
    ghost var born: map<nat, nat>

    function C(): Client
      reads this
    {
      Client(cap, pool, inUse, idleSince, dialing, poolGen, ready, growAfter, growBackoff)
    }

    ghost function S(): Sys
      reads this
    {
      Sys(C(), leases, dead, flights, sup, born)
    }

    constructor (poolCap: nat)
      ensures S() == P.Start(poolCap)
    {
      cap, pool, inUse, idleSince, dialing, poolGen := poolCap, [], map[], map[], 0, 0;
      ready, growAfter, growBackoff, dead := false, 0, 0, {};
      leases, flights, sup, born := multiset{}, [], Resting, map[];
    }

    /** evictDeadLocked. */
    method EvictDead()
      modifies this
      ensures S() == old(S()).(c := Evict(old(C()), dead))
    {
      pool := Without(pool, dead);
    }

    static method Without(list: seq<nat>, out: set<nat>) returns (keep: seq<nat>)
      ensures keep == Keep(list, out)
    {
      keep := [];
      for i := 0 to |list|
        invariant keep == Keep(list[..i], out)
      {
        assert list[..i + 1][..i] == list[..i];
        if list[i] !in out {
          keep := keep + [list[i]];
        }
      }
      assert list[..|list|] == list;
    }

    method LeastLoaded() returns (best: nat)
      requires pool != []
      ensures best == Best(C(), pool)
    {
      best := pool[0];
      for i := 1 to |pool|
        invariant best == Best(C(), pool[..i])
      {
        assert pool[..i + 1][..i] == pool[..i];
        if Load(C(), pool[i]) < Load(C(), best) {
          best := pool[i];
        }
      }
      assert pool[..|pool|] == pool;
    }

    /** acquire; None is "no session". */
    method Acquire(now: int) returns (got: Option<nat>)
      modifies this
      ensures S() == Next(old(S()), P.Acquire(now))
      ensures got.None? <==> pool == []
      ensures got.Some? ==> leases == old(leases) + multiset{got.value}
    {
      hide Keep, Best, Grant, Evict;
      EvictDead();
      EvictShape(old(C()), dead);
      if |pool| == 0 {
        return None;
      }
      var best := LeastLoaded();
      Lease(best, now);
      got := Some(best);
    }

    method Lease(best: nat, now: int)
      modifies this
      ensures S() == Grant(old(S()), best, now) && pool == old(pool) && leases == old(leases) + multiset{best}
    {
      hide MayGrow;
      var n := Load(C(), best);
      if n > 0 && MayGrow(C(), now) {
        dialing := dialing + 1;
        flights := flights + [poolGen];
      }
      inUse := inUse[best := n + 1];
      leases := leases + multiset{best};
    }

    method Release(id: nat, now: int)
      modifies this
      ensures S() == Next(old(S()), P.Release(id, now))
    {
      var n := Load(C(), id);
      var left := if n > 0 then n - 1 else 0;
      inUse := inUse[id := left];
      if left == 0 {
        idleSince := idleSince[id := now];
      }
      leases := leases - multiset{id};
    }

    method Admit(id: nat, gen: nat, now: int)
      modifies this
      ensures S() == Join(old(S()), id, gen, now)
    {
      pool, inUse, idleSince := pool + [id], inUse[id := 0], idleSince[id := now];
      born := born[id := gen];
    }

    method DialFailed(now: int)
      modifies this
      ensures S() == old(S()).(c := old(C()).(growBackoff := Backoff(old(C())), growAfter := now + Backoff(old(C()))))
    {
      growBackoff := Min(Max(growBackoff * 2, FLOOR), CEILING);
      growAfter := now + growBackoff;
    }

    /** grow once its dial has returned; gen is the generation the dial began in. */
    method GrowFinish(gen: nat, dialed: bool, id: nat, now: int)
      requires flights == [gen] && dialing == 1
      modifies this
      ensures S() == Next(old(S()), GrowDone(0, dialed, id, now))
    {
      hide Join, Backoff;
      dialing := dialing - 1;
      flights := flights[..0] + flights[1..];
      if !dialed {
        SameBackoff(old(C()), C());
        DialFailed(now);
      } else if gen == poolGen && |pool| < cap {
        growBackoff := 0;
        Admit(id, gen, now);
      }
    }

    /** ensureSession's locked check: whether the supervisor goes on to dial. */
    method CheckSession(mayDial: bool) returns (dials: bool)
      modifies this
      ensures S() == Next(old(S()), Check(mayDial)) && dials == (sup == Checked)
    {
      hide Keep;
      EvictDead();
      dials := mayDial && |pool| == 0;
      sup := if dials then Checked else Resting;
    }

    /** setState(connecting), outside the lock: from here on nothing grows. */
    method BeginDial()
      modifies this
      ensures S() == Next(old(S()), ShowConnecting)
    {
      ready := false;
      sup := Dialing;
    }

    /** ensureSession after its dial. */
    method AddSession(dialed: bool, id: nat, now: int)
      modifies this
      ensures S() == Next(old(S()), Connect(dialed, id, now))
    {
      hide Join;
      sup := Resting;
      if dialed {
        Admit(id, poolGen, now);
      }
    }

    method ReapIdle(now: int)
      modifies this
      ensures S() == Next(old(S()), Reap(now))
    {
      hide Keep;
      var closing: set<nat> := {};
      for i := 0 to |pool|
        invariant unchanged(this)
        invariant closing == set j | 0 < j < i && Load(C(), pool[j]) == 0 &&
                  now - Idle(C(), pool[j]) >= IDLE_TIMEOUT :: pool[j]
      {
        if i > 0 && Load(C(), pool[i]) == 0 && now - Idle(C(), pool[i]) >= IDLE_TIMEOUT {
          closing := closing + {pool[i]};
        }
      }
      pool := Without(pool, closing);
    }

    method DropAll()
      modifies this
      ensures S() == Next(old(S()), Drop)
    {
      pool := [];
      poolGen := poolGen + 1;
    }
  }

  lemma {:induction false} SameBackoff(a: Client, b: Client)
    requires a.growBackoff == b.growBackoff
    ensures Backoff(a) == Backoff(b)
  {
  }

  lemma {:induction false} EvictShape(c: Client, dead: set<nat>)
    ensures Evict(c, dead) == c.(pool := Evict(c, dead).pool)
  {
    hide Keep;
  }
}
