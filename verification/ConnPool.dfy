/** The queue client's connection pool (capi/queuepool.go, capi/queue.go) under every interleaving of its
    locked sections: queries, growth dials, and the supervisor's own check, dial, reap and drop. */
module ConnPool {
  import opened Text

  const IDLE_TIMEOUT: int := 120
  const FLOOR: int := 2
  const CEILING: int := 60

  /** Connections are known by number; inUse and idleSince belong to a connection whether or not the pool
      still lists it. Times are seconds. */
  datatype Client = Client(cap: nat, pool: seq<nat>, inUse: map<nat, nat>, idleSince: map<nat, int>, dialing: nat,
                           poolGen: nat,
                           ready: bool, growAfter: int, growBackoff: int)

  /** Where the supervisor is in ensureSession: outside it, past its check of an empty pool but not yet
      showing that it is connecting, or dialling. */
  datatype Phase = Resting | Checked | Dialing

  /** The client, the leases outstanding, the dead connections, the generation each growth dial in flight
      began in, the supervisor's phase, and the generation each connection's dial began in. */
  datatype Sys = Sys(c: Client, leases: multiset<nat>, dead: set<nat>, flights: seq<nat>, sup: Phase,
                     born: map<nat, nat>)

  datatype Action =
    | Acquire(now: int)
    | Release(id: nat, now: int)
    | GrowDone(k: nat, dialed: bool, id: nat, now: int)
    | Check(mayDial: bool)                           // ensureSession's locked check
    | ShowConnecting                                 // setState, and the dial begins
    | Connect(dialed: bool, id: nat, now: int)       // after the dial
    | Reap(now: int)
    | Drop
    | Verdict(ready: bool)
    | Dies(id: nat)

  // ---------------------------------------------------------------------------------------
  // Steps.

  /** The pool without some of its connections. */
  function Keep(pool: seq<nat>, out: set<nat>): seq<nat> {
    if pool == [] then []
    else
      var n := |pool| - 1;
      Keep(pool[..n], out) + if pool[n] in out then [] else [pool[n]]
  }

  function Evict(c: Client, dead: set<nat>): Client { c.(pool := Keep(c.pool, dead)) }

  function Load(c: Client, id: nat): nat { if id in c.inUse then c.inUse[id] else 0 }

  function Idle(c: Client, id: nat): int { if id in c.idleSince then c.idleSince[id] else 0 }

  /** The first of the least-loaded connections. */
  function Best(c: Client, pool: seq<nat>): nat
    requires pool != []
  {
    var n := |pool| - 1;
    if n == 0 then pool[0]
    else
      var best := Best(c, pool[..n]);
      if Load(c, pool[n]) < Load(c, best) then pool[n] else best
  }

  predicate MayGrow(c: Client, now: int) {
    c.ready && |c.pool| + c.dialing < c.cap && c.dialing == 0 && now >= c.growAfter
  }

  function Max(a: int, b: int): int { if a < b then b else a }

  function Min(a: int, b: int): int { if a < b then a else b }

  function Backoff(c: Client): int { Min(Max(c.growBackoff * 2, FLOOR), CEILING) }

  function Join(s: Sys, id: nat, gen: nat, now: int): Sys {
    s.(c := s.c.(pool := s.c.pool + [id], inUse := s.c.inUse[id := 0], idleSince := s.c.idleSince[id := now]),
       born := s.born[id := gen])
  }

  /** A lease on a connection; contention on the least-loaded one starts a growth dial. */
  function Grant(s: Sys, best: nat, now: int): Sys {
    var grow := Load(s.c, best) > 0 && MayGrow(s.c, now);
    s.(c := s.c.(inUse := s.c.inUse[best := Load(s.c, best) + 1],
                 dialing := if grow then s.c.dialing + 1 else s.c.dialing),
       leases := s.leases + multiset{best},
       flights := if grow then s.flights + [s.c.poolGen] else s.flights)
  }

  function DoAcquire(s: Sys, now: int): Sys {
    var s1 := s.(c := Evict(s.c, s.dead));
    if s1.c.pool == [] then s1 else Grant(s1, Best(s1.c, s1.c.pool), now)
  }

  function DoRelease(s: Sys, id: nat, now: int): Sys {
    var left := if Load(s.c, id) > 0 then Load(s.c, id) - 1 else 0;
    s.(c := s.c.(inUse := s.c.inUse[id := left],
                 idleSince := if left == 0 then s.c.idleSince[id := now] else s.c.idleSince),
       leases := s.leases - multiset{id})
  }

  function DoGrowDone(s: Sys, k: nat, dialed: bool, id: nat, now: int): Sys
    requires k < |s.flights|
  {
    var gen := s.flights[k];
    var s1 := s.(c := s.c.(dialing := if s.c.dialing > 0 then s.c.dialing - 1 else 0),
                 flights := s.flights[..k] + s.flights[k + 1..]);
    if !dialed then s1.(c := s1.c.(growBackoff := Backoff(s.c), growAfter := now + Backoff(s.c)))
    else if gen != s.c.poolGen || |s.c.pool| >= s.c.cap then s1
    else Join(s1.(c := s1.c.(growBackoff := 0)), id, gen, now)
  }

  /** Grown connections nobody uses and nobody has for a while. */
  function Unused(c: Client, now: int): set<nat> {
    set i | 0 < i < |c.pool| && Load(c, c.pool[i]) == 0 && now - Idle(c, c.pool[i]) >= IDLE_TIMEOUT :: c.pool[i]
  }

  function DoReap(c: Client, now: int): Client { c.(pool := Keep(c.pool, Unused(c, now))) }

  function Next(s: Sys, a: Action): Sys {
    match a
    case Acquire(now) => DoAcquire(s, now)
    case Release(id, now) => DoRelease(s, id, now)
    case GrowDone(k, dialed, id, now) => if k < |s.flights| then DoGrowDone(s, k, dialed, id, now) else s
    case Check(mayDial) =>
      var c := Evict(s.c, s.dead);
      s.(c := c, sup := if mayDial && c.pool == [] then Checked else Resting)
    case ShowConnecting => s.(c := s.c.(ready := false), sup := Dialing)
    case Connect(dialed, id, now) =>
      var s1 := s.(sup := Resting);
      if dialed then Join(s1, id, s.c.poolGen, now) else s1
    case Reap(now) => s.(c := DoReap(s.c, now))
    case Drop => s.(c := s.c.(pool := [], poolGen := s.c.poolGen + 1))
    case Verdict(ready) => s.(c := s.c.(ready := ready))
    case Dies(id) => s.(dead := s.dead + {id})
  }

  /** A lease is released once; dials yield new connections; the supervisor does one thing at a time. */
  predicate Allowed(s: Sys, a: Action) {
    match a
    case Release(id, _) => id in s.leases
    case GrowDone(k, _, id, _) => k < |s.flights| && id !in s.c.inUse
    case Check(_) => s.sup == Resting
    case ShowConnecting => s.sup == Checked
    case Connect(_, id, _) => s.sup == Dialing && id !in s.c.inUse
    case Reap(_) => s.sup == Resting
    case Drop => s.sup == Resting
    case Verdict(_) => s.sup == Resting
    case _ => true
  }

  // ---------------------------------------------------------------------------------------
  // What every interleaving keeps.

  predicate NoRepeat(pool: seq<nat>) { forall i, j :: 0 <= i < j < |pool| ==> pool[i] != pool[j] }

  /** Each connection's inUse is its outstanding leases. */
  ghost predicate Leased(s: Sys) {
    && (forall id :: id in s.c.inUse ==> s.c.inUse[id] == s.leases[id])
    && (forall id :: id in s.leases ==> id in s.c.inUse)
  }

  /** The pool lists known connections once, all dialled in the present generation. */
  ghost predicate Current(s: Sys) {
    NoRepeat(s.c.pool) && forall i :: 0 <= i < |s.c.pool| ==>
        s.c.pool[i] in s.c.inUse && s.c.pool[i] in s.born && s.born[s.c.pool[i]] == s.c.poolGen
  }

  ghost predicate Bounded(s: Sys) {
    && s.c.dialing == |s.flights| <= 1
    && |s.c.pool| <= s.c.cap + 1 && (s.sup != Resting ==> |s.c.pool| <= s.c.cap) && (s.sup == Dialing ==> !s.c.ready)
    && (forall k :: 0 <= k < |s.flights| ==> s.flights[k] <= s.c.poolGen)
    && (s.c.growBackoff == 0 || FLOOR <= s.c.growBackoff <= CEILING)
  }

  ghost predicate Inv(s: Sys) { Leased(s) && Current(s) && Bounded(s) && s.c.cap >= 1 }

  lemma {:induction false} KeepSome(pool: seq<nat>, out: set<nat>)
    ensures |Keep(pool, out)| <= |pool|
    ensures forall id :: id in Keep(pool, out) <==> id in pool && id !in out
    ensures NoRepeat(pool) ==> NoRepeat(Keep(pool, out))
  {
    if pool != [] {
      var n := |pool| - 1;
      KeepSome(pool[..n], out);
      assert pool == pool[..n] + [pool[n]];
      var kept := Keep(pool[..n], out);
      if NoRepeat(pool) {
        assert pool[n] !in pool[..n];
        forall i | 0 <= i < |kept| ensures kept[i] != pool[n] { assert kept[i] in kept; }
      }
    }
  }

  lemma {:induction false} BestLeast(c: Client, pool: seq<nat>)
    requires pool != []
    ensures Best(c, pool) in pool && forall i :: 0 <= i < |pool| ==> Load(c, Best(c, pool)) <= Load(c, pool[i])
  {
    var n := |pool| - 1;
    if n > 0 { BestLeast(c, pool[..n]); }
  }

  lemma {:induction false} BestFirst(c: Client, pool: seq<nat>) returns (k: nat)
    requires pool != []
    ensures k < |pool| && Best(c, pool) == pool[k]
    ensures forall i :: 0 <= i < |pool| ==> Load(c, pool[k]) <= Load(c, pool[i])
    ensures forall i :: 0 <= i < k ==> Load(c, pool[k]) < Load(c, pool[i])
  {
    hide Load;
    var n := |pool| - 1;
    if n == 0 {
      k := 0;
    } else {
      k := BestFirst(c, pool[..n]);
      if Load(c, pool[n]) < Load(c, pool[k]) { k := n; }
    }
  }

  lemma {:induction false} KeepCurrent(s: Sys, out: set<nat>)
    requires Inv(s)
    ensures Inv(s.(c := s.c.(pool := Keep(s.c.pool, out))))
  {
    hide Keep;
    KeepSome(s.c.pool, out);
    var kept := Keep(s.c.pool, out);
    forall i | 0 <= i < |kept| ensures kept[i] in s.c.inUse && kept[i] in s.born && s.born[kept[i]] == s.c.poolGen {
      assert kept[i] in kept;
      var j :| 0 <= j < |s.c.pool| && s.c.pool[j] == kept[i];
    }
  }

  lemma {:induction false} AcquireInv(s: Sys, now: int)
    requires Inv(s)
    ensures Inv(DoAcquire(s, now))
  {
    hide Keep, Best;
    KeepCurrent(s, s.dead);
    var c := Evict(s.c, s.dead);
    assert Inv(s.(c := c));
    if c.pool != [] {
      BestLeast(c, c.pool);
    }
  }

  lemma {:induction false} ReleaseInv(s: Sys, id: nat, now: int)
    requires Inv(s) && id in s.leases
    ensures Inv(DoRelease(s, id, now)) && Load(s.c, id) > 0
  {
  }

  lemma {:induction false} JoinInv(s: Sys, id: nat, now: int)
    requires Inv(s) && id !in s.c.inUse && |s.c.pool| <= s.c.cap && (s.sup != Resting ==> |s.c.pool| < s.c.cap)
    ensures Inv(Join(s, id, s.c.poolGen, now))
  {
    assert s.leases[id] == 0;
  }

  lemma {:induction false} GrowDoneInv(s: Sys, k: nat, dialed: bool, id: nat, now: int)
    requires Inv(s) && k < |s.flights| && id !in s.c.inUse
    ensures Inv(DoGrowDone(s, k, dialed, id, now))
  {
    hide Join;
    assert k == 0 && s.flights[..k] + s.flights[k + 1..] == [];
    var s1 := s.(c := s.c.(dialing := s.c.dialing - 1), flights := []);
    if dialed && s.flights[k] == s.c.poolGen && |s.c.pool| < s.c.cap {
      JoinInv(s1.(c := s1.c.(growBackoff := 0)), id, now);
    }
  }

  /** Every step keeps the invariant. */
  lemma {:induction false} StepInv(s: Sys, a: Action)
    requires Inv(s) && Allowed(s, a)
    ensures Inv(Next(s, a))
  {
    hide Keep, DoAcquire, DoRelease, DoGrowDone, Join;
    match a {
      case Acquire(now) => AcquireInv(s, now);
      case Release(id, now) => ReleaseInv(s, id, now);
      case GrowDone(k, dialed, id, now) => GrowDoneInv(s, k, dialed, id, now);
      case Check(_) => KeepCurrent(s, s.dead);
      case Connect(dialed, id, now) => ConnectInv(s, id, now);
      case Reap(now) => KeepCurrent(s, Unused(s.c, now));
      case _ =>
    }
  }

  lemma {:induction false} ConnectInv(s: Sys, id: nat, now: int)
    requires Inv(s) && s.sup == Dialing && id !in s.c.inUse
    ensures Inv(s.(sup := Resting)) && Inv(Join(s.(sup := Resting), id, s.c.poolGen, now))
  {
    JoinInv(s.(sup := Resting), id, now);
  }

  // ---------------------------------------------------------------------------------------
  // Runs.

  ghost predicate ValidRun(s: Sys, acts: seq<Action>)
    decreases |acts|
  {
    acts == [] || (Allowed(s, acts[0]) && ValidRun(Next(s, acts[0]), acts[1..]))
  }

  function Run(s: Sys, acts: seq<Action>): Sys
    decreases |acts|
  {
    if acts == [] then s else Run(Next(s, acts[0]), acts[1..])
  }

  /** In every interleaving: one growth dial at most, leases counted exactly, no connection from before
      the last drop, and never more than one connection over the cap. */
  lemma {:induction false} RunInv(s: Sys, acts: seq<Action>)
    requires Inv(s) && ValidRun(s, acts)
    ensures Inv(Run(s, acts))
    decreases |acts|
  {
    hide Inv, Next, Allowed;
    if acts != [] {
      StepInv(s, acts[0]);
      RunInv(Next(s, acts[0]), acts[1..]);
    }
  }

  lemma {:induction false} NextGen(s: Sys, a: Action)
    ensures Next(s, a).c.poolGen >= s.c.poolGen
  {
    hide Keep, Best, Unused, Load, MayGrow, Backoff;
  }

  lemma {:induction false} GenGrows(s: Sys, acts: seq<Action>)
    ensures Run(s, acts).c.poolGen >= s.c.poolGen
    decreases |acts|
  {
    hide Next;
    if acts != [] {
      NextGen(s, acts[0]);
      GenGrows(Next(s, acts[0]), acts[1..]);
    }
  }

  /** No dial begun before a drop joins the pool after it. */
  lemma {:induction false} StaleNeverJoins(s: Sys, acts: seq<Action>, i: nat)
    requires Inv(s) && Allowed(s, Drop) && ValidRun(Next(s, Drop), acts) && i < |Run(Next(s, Drop), acts).c.pool|
    ensures var t := Run(Next(s, Drop), acts); t.c.pool[i] in t.born && t.born[t.c.pool[i]] > s.c.poolGen
  {
    StepInv(s, Drop);
    RunInv(Next(s, Drop), acts);
    GenGrows(Next(s, Drop), acts);
  }

  /** A reap takes no leased connection and never the last one. */
  lemma {:induction false} ReapSpares(s: Sys, now: int, i: nat)
    requires Inv(s) && i < |s.c.pool| && (s.c.pool[i] in s.leases || i == 0)
    ensures s.c.pool[i] in Next(s, Reap(now)).c.pool
  {
    hide Keep;
    KeepSome(s.c.pool, Unused(s.c, now));
  }

  /** A dial's connection joins at the end of the pool, unleased and idle since then, exactly when a growth dial
      came back to the generation it left and found room, or the supervisor's dial succeeded. */
  lemma {:induction false} JoinExact(s: Sys, a: Action)
    requires Inv(s) && Allowed(s, a) && (a.GrowDone? || a.Connect?)
    ensures var t := Next(s, a);
            if GrowJoins(s, a) || (a.Connect? && a.dialed) then
              t.c.pool == s.c.pool + [a.id] && a.id !in t.leases && t.c.inUse[a.id] == 0 && Idle(t.c, a.id) == a.now
            else t.c.pool == s.c.pool && t.c.inUse == s.c.inUse && t.c.idleSince == s.c.idleSince
  {
  }

  /** What drops a connection: its death is noticed, a reap, or the supervisor writing the whole pool off. */
  lemma {:induction false} LeavesExact(s: Sys, a: Action)
    requires Inv(s) && Allowed(s, a) && !a.Reap?
    ensures var t := Next(s, a);
            forall i :: 0 <= i < |s.c.pool| ==>
              (s.c.pool[i] in t.c.pool <==> !a.Drop? && !((a.Acquire? || a.Check?) && s.c.pool[i] in s.dead))
  {
    hide Keep, Best, Unused;
    KeepSome(s.c.pool, s.dead);
    assert forall i :: 0 <= i < |s.c.pool| ==> s.c.pool[i] in s.c.pool;
    if a.Acquire? && Evict(s.c, s.dead).pool != [] { BestLeast(Evict(s.c, s.dead), Evict(s.c, s.dead).pool); }
  }

  /** The action returns the connection's last lease. */
  predicate LastReturn(s: Sys, a: Action, id: nat) { a.Release? && a.id == id && s.leases[id] == 1 }

  /** A connection is idle since the moment its last lease came back. */
  lemma {:induction false} IdleExact(s: Sys, a: Action, id: nat)
    requires Inv(s) && Allowed(s, a) && id in s.c.inUse
    ensures Idle(Next(s, a).c, id) == if LastReturn(s, a, id) then a.now else Idle(s.c, id)
  {
    hide DoAcquire, DoRelease, DoGrowDone, Evict, DoReap, Leased, Current, Bounded;
    match a {
      case Acquire(now) => AcquireIdle(s, now);
      case Release(gone, now) => ReleaseIdle(s, gone, now, id);
      case GrowDone(k, dialed, joined, now) => GrowIdle(s, k, dialed, joined, now, id);
      case Check(_) => EvictIdle(s.c, s.dead);
      case Reap(now) => ReapIdle(s.c, now);
      case _ =>
    }
  }

  lemma {:induction false} AcquireIdle(s: Sys, now: int)
    ensures DoAcquire(s, now).c.idleSince == s.c.idleSince
  {
    hide Keep, Best, Load;
  }

  lemma {:induction false} EvictIdle(c: Client, dead: set<nat>)
    ensures Evict(c, dead).idleSince == c.idleSince
  {
    hide Keep;
  }

  lemma {:induction false} ReapIdle(c: Client, now: int)
    ensures DoReap(c, now).idleSince == c.idleSince
  {
    hide Keep, Unused;
  }

  lemma {:induction false} ReleaseIdle(s: Sys, gone: nat, now: int, id: nat)
    requires Leased(s) && gone in s.leases
    ensures Idle(DoRelease(s, gone, now).c, id) == if gone == id && s.leases[id] == 1 then now else Idle(s.c, id)
  {
  }

  lemma {:induction false} GrowIdle(s: Sys, k: nat, dialed: bool, joined: nat, now: int, id: nat)
    requires k < |s.flights| && joined != id
    ensures Idle(DoGrowDone(s, k, dialed, joined, now).c, id) == Idle(s.c, id)
  {
    hide Backoff;
  }

  /** A reap drops exactly the connections after the first that nobody leases and that have been idle for two
      minutes or more, and keeps the rest in their order. */
  lemma {:induction false} ReapExact(s: Sys, now: int)
    requires Inv(s)
    ensures var t := Next(s, Reap(now));
            && t == s.(c := s.c.(pool := t.c.pool)) && Ordered(t.c.pool, s.c.pool)
            && forall i :: 0 <= i < |s.c.pool| ==>
                 var id := s.c.pool[i];
                 id in t.c.pool <==> i == 0 || id in s.leases || now - Idle(s.c, id) < 120
  {
    hide Keep;
    KeepSome(s.c.pool, Unused(s.c, now));
    KeepOrdered(s.c.pool, Unused(s.c, now));
  }

  /** a lists some of b's connections in b's order. */
  predicate Ordered(a: seq<nat>, b: seq<nat>) {
    if a == [] then true
    else b != [] && if a[|a| - 1] == b[|b| - 1] then Ordered(a[..|a| - 1], b[..|b| - 1]) else Ordered(a, b[..|b| - 1])
  }

  lemma {:induction false} KeepOrdered(pool: seq<nat>, out: set<nat>)
    requires NoRepeat(pool)
    ensures Ordered(Keep(pool, out), pool)
  {
    if pool != [] {
      var n := |pool| - 1;
      KeepOrdered(pool[..n], out);
      var kept := Keep(pool[..n], out);
      KeepSome(pool[..n], out);
      if pool[n] in out {
        assert pool[n] !in pool[..n];
        assert kept != [] ==> kept[|kept| - 1] in kept && kept[|kept| - 1] != pool[n];
        assert Keep(pool, out) == kept;
      } else {
        assert (kept + [pool[n]])[..|kept|] == kept;
      }
    }
  }

  /** A query starts a growth dial exactly when every live connection is in use, the database is ready, no growth
      dial is out, the pool is below its cap, and the backoff has run out. */
  lemma {:induction false} GrowsExactly(s: Sys, now: int)
    requires Inv(s)
    ensures var t := Next(s, Acquire(now));
            t.flights != s.flights <==>
              && t.c.pool != [] && (forall i :: 0 <= i < |t.c.pool| ==> Load(s.c, t.c.pool[i]) > 0)
              && s.c.ready && s.flights == [] && |t.c.pool| < s.c.cap && s.c.growAfter <= now
    ensures var t := Next(s, Acquire(now)); t.flights == s.flights || t.flights == [s.c.poolGen]
  {
    hide Keep, Best;
    var c := Evict(s.c, s.dead);
    if c.pool != [] { BestLeast(c, c.pool); }
  }

  function Doubled(n: nat): int { if n == 0 then 1 else 2 * Doubled(n - 1) }

  /** The wait after n failed growth dials in a row: 2, 4, 8 ... seconds, a minute at most. */
  function WaitAfter(n: nat): int { if n == 0 then 0 else if n < 6 then Doubled(n) else 60 }

  lemma {:induction false} WaitGrows(n: nat)
    ensures WaitAfter(n + 1) == Min(Max(2 * WaitAfter(n), 2), 60)
  {
    assert Doubled(1) == 2 && Doubled(2) == 4 && Doubled(3) == 8 && Doubled(4) == 16 && Doubled(5) == 32;
  }

  /** The action is a growth dial's failure. */
  predicate GrowFails(s: Sys, a: Action) { a.GrowDone? && a.k < |s.flights| && !a.dialed }

  /** The action is a growth dial the pool takes in. */
  predicate GrowJoins(s: Sys, a: Action) {
    a.GrowDone? && a.k < |s.flights| && a.dialed && s.flights[a.k] == s.c.poolGen && |s.c.pool| < s.c.cap
  }

  function CountFailure(s: Sys, a: Action, n: nat): nat {
    if GrowFails(s, a) then n + 1 else if GrowJoins(s, a) then 0 else n
  }

  /** The growth dials that have failed in a row after a run that begins with n. */
  function Failures(s: Sys, acts: seq<Action>, n: nat): nat
    decreases |acts|
  {
    if acts == [] then n else Failures(Next(s, acts[0]), acts[1..], CountFailure(s, acts[0], n))
  }

  /** Over any run the backoff is the one the failures in a row call for. */
  lemma {:induction false} BackoffExact(s: Sys, acts: seq<Action>, n: nat)
    requires s.c.growBackoff == WaitAfter(n)
    ensures Run(s, acts).c.growBackoff == WaitAfter(Failures(s, acts, n))
    decreases |acts|
  {
    hide Next, WaitAfter;
    if acts != [] {
      BackoffStep(s, acts[0], n);
      BackoffExact(Next(s, acts[0]), acts[1..], CountFailure(s, acts[0], n));
    }
  }

  /** One action: a failure doubles the backoff and holds growth off for that long, a connection that joins ends
      it, and nothing else moves it. */
  lemma {:induction false} BackoffStep(s: Sys, a: Action, n: nat)
    requires s.c.growBackoff == WaitAfter(n)
    ensures Next(s, a).c.growBackoff == WaitAfter(CountFailure(s, a, n))
    ensures Next(s, a).c.growAfter == if GrowFails(s, a) then a.now + WaitAfter(n + 1) else s.c.growAfter
  {
    hide Keep, Best, Unused, Load, WaitAfter;
    WaitGrows(n);
    assert WaitAfter(0) == 0 by { NoWait(); }
  }

  lemma {:induction false} NoWait()
    ensures WaitAfter(0) == 0
  {
  }

  /** A query that gets a connection gets a live one that no other is less loaded than, and the first such. */
  lemma {:induction false} AcquireLeast(s: Sys, now: int)
    requires Inv(s)
    ensures var t := Next(s, Acquire(now));
            if t.c.pool == [] then t.leases == s.leases
            else exists k :: && 0 <= k < |t.c.pool| && t.c.pool[k] !in s.dead
                             && t.leases == s.leases + multiset{t.c.pool[k]}
                             && (forall i :: 0 <= i < |t.c.pool| ==> Load(s.c, t.c.pool[k]) <= Load(s.c, t.c.pool[i]))
                             && forall i :: 0 <= i < k ==> Load(s.c, t.c.pool[k]) < Load(s.c, t.c.pool[i])
  {
    hide Keep, Best;
    var c := Evict(s.c, s.dead);
    if c.pool != [] {
      var k := BestFirst(c, c.pool);
      KeepSome(s.c.pool, s.dead);
      assert c.pool[k] in c.pool;
      assert forall i :: 0 <= i < |c.pool| ==> Load(c, c.pool[i]) == Load(s.c, c.pool[i]);
    }
  }

  function Start(cap: nat): Sys {
    Sys(Client(cap, [], map[], map[], 0, 0, false, 0, 0), multiset{}, {}, [], Resting, map[])
  }

  lemma {:induction false} StartInv(cap: nat)
    requires cap >= 1
    ensures Inv(Start(cap))
  {
  }

  // ---------------------------------------------------------------------------------------
  // When the cap is passed.

  /** A step takes the pool over its cap exactly when it is the supervisor's own append to a full pool. */
  lemma {:induction false} OverCapIff(s: Sys, a: Action)
    requires Inv(s) && Allowed(s, a) && |s.c.pool| <= s.c.cap
    ensures |Next(s, a).c.pool| > s.c.cap <==> a.Connect? && a.dialed && |s.c.pool| == s.c.cap
  {
    hide Keep, Best, Unused, Load, MayGrow, Backoff;
    KeepSome(s.c.pool, s.dead);
    match a {
      case Reap(now) => KeepSome(s.c.pool, Unused(s.c, now));
      case _ =>
    }
  }

  /** No growth dial begins once the supervisor shows Connecting, so only one begun before can still join. */
  lemma {:induction false} NoGrowthWhileDialing(s: Sys, a: Action)
    requires Inv(s) && Allowed(s, a) && s.sup == Dialing
    ensures |Next(s, a).flights| <= |s.flights|
    ensures |Next(s, a).c.pool| > |s.c.pool| ==> a.Connect? || |Next(s, a).flights| < |s.flights|
  {
    hide Keep, Best, Unused, Load, Backoff;
    KeepSome(s.c.pool, s.dead);
  }

  lemma {:induction false} RunSnoc(s: Sys, acts: seq<Action>, a: Action)
    requires ValidRun(s, acts) && Allowed(Run(s, acts), a)
    ensures ValidRun(s, acts + [a]) && Run(s, acts + [a]) == Next(Run(s, acts), a)
    decreases |acts|
  {
    hide Next, Allowed;
    if acts == [] {
      assert (acts + [a])[1..] == [];
    } else {
      RunSnoc(Next(s, acts[0]), acts[1..], a);
      assert (acts + [a])[1..] == acts[1..] + [a];
    }
  }

  lemma {:induction false} KeepNone(id: nat, out: set<nat>)
    ensures Keep([], out) == [] && Keep([id], out) == if id in out then [] else [id]
  {
    assert [id][..0] == [];
  }

  /** Two queries in a row on a pool of one connection start a growth dial. */
  lemma {:induction false} Contended(s: Sys, id: nat)
    requires s.c.pool == [id] && id !in s.dead && id in s.c.inUse && s.c.inUse[id] == 0
    requires s.c.ready && s.c.cap == 2 && s.c.dialing == 0 && s.flights == [] && s.c.growAfter == 0
    ensures var t := Next(Next(s, Acquire(0)), Acquire(0));
            && t.c.pool == [id] && t.flights == [s.c.poolGen] && t.c.dialing == 1 && t.c.inUse.Keys == s.c.inUse.Keys
            && t.c.poolGen == s.c.poolGen && t.c.cap == 2 && t.c.ready && t.c.growAfter == 0
            && t.sup == s.sup && t.dead == s.dead
  {
    hide Keep;
    KeepNone(id, s.dead);
    var c := Evict(s.c, s.dead);
    assert Best(c, [id]) == id;
    var s1 := Next(s, Acquire(0));
    assert Load(s1.c, id) == 1 && s1.flights == [] && s1.c.pool == [id] && s1.c.dialing == 0;
    var c1 := Evict(s1.c, s1.dead);
    assert Best(c1, [id]) == id && MayGrow(c1, 0);
  }

  /** The supervisor connects once: a pool of one unleased connection, ready. */
  lemma {:induction false} Connected() returns (r: seq<Action>)
    ensures ValidRun(Start(2), r)
    ensures var t := Run(Start(2), r);
            && t.c.pool == [1] && t.sup == Resting && t.flights == [] && t.c.dialing == 0 && t.c.inUse == map[1 := 0]
            && t.dead == {} && t.c.poolGen == 0 && t.c.cap == 2 && t.c.ready && t.c.growAfter == 0
  {
    hide Keep, DoAcquire, Run, ValidRun;
    var s0 := Start(2);
    KeepNone(1, {});
    r := [];
    RunNone(s0);
    RunSnoc(s0, r, Check(true)); r := r + [Check(true)];
    RunSnoc(s0, r, ShowConnecting); r := r + [ShowConnecting];
    RunSnoc(s0, r, Connect(true, 1, 0)); r := r + [Connect(true, 1, 0)];
    RunSnoc(s0, r, Verdict(true)); r := r + [Verdict(true)];
  }

  /** Up to the supervisor's second check: one growth dial out, the pool emptied, Ready still showing. */
  lemma {:induction false} Emptied() returns (r: seq<Action>)
    ensures ValidRun(Start(2), r)
    ensures var t := Run(Start(2), r);
            && t.c.pool == [] && t.sup == Checked && t.flights == [0] && t.c.dialing == 1 && t.c.inUse.Keys == {1} &&
                t.dead == {1}
            && t.c.poolGen == 0 && t.c.cap == 2 && t.c.ready && t.c.growAfter == 0
  {
    hide Keep, DoAcquire, Run, ValidRun;
    var s0 := Start(2);
    KeepNone(1, {1});
    r := Connected();
    Contended(Run(s0, r), 1);
    RunSnoc(s0, r, Acquire(0)); r := r + [Acquire(0)];
    RunSnoc(s0, r, Acquire(0)); r := r + [Acquire(0)];
    RunSnoc(s0, r, Dies(1)); r := r + [Dies(1)];
    assert Run(s0, r).dead == {1} && Run(s0, r).c.pool == [1];
    RunSnoc(s0, r, Check(true)); r := r + [Check(true)];
  }

  lemma {:induction false} RunNone(s: Sys)
    ensures Run(s, []) == s && ValidRun(s, [])
  {
  }

  /** With a cap of two, three connections can be up: between the supervisor's check of an empty pool and
      its showing Connecting, a growth dial from before the check joins and two queries start another. */
  lemma {:induction false} OneOverCap()
    ensures exists acts :: ValidRun(Start(2), acts) && |Run(Start(2), acts).c.pool| == 3
  {
    hide Keep, DoAcquire, Run, ValidRun;
    var s0 := Start(2);
    var r := Emptied();
    RunSnoc(s0, r, GrowDone(0, true, 2, 0)); r := r + [GrowDone(0, true, 2, 0)];
    Contended(Run(s0, r), 2);
    RunSnoc(s0, r, Acquire(0)); r := r + [Acquire(0)];
    RunSnoc(s0, r, Acquire(0)); r := r + [Acquire(0)];
    RunSnoc(s0, r, GrowDone(0, true, 3, 0)); r := r + [GrowDone(0, true, 3, 0)];
    RunSnoc(s0, r, ShowConnecting); r := r + [ShowConnecting];
    RunSnoc(s0, r, Connect(true, 4, 0)); r := r + [Connect(true, 4, 0)];
    assert ValidRun(s0, r) && |Run(s0, r).c.pool| == 3;
  }
}
