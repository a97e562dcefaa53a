/** What scale-up ticks guarantee, from the operations they leave behind: a bound under any
    interference, the exact numbers when nothing interferes, and the fixed point of ticks. */
module ScaleUpTheorems {
  import opened Common
  import opened PoolMatch
  import opened Tracker
  import opened ScaleUp

  // ---- Any tick, whatever ends or expires meanwhile ----

  lemma {:induction false} StartedGrows(h0: seq<Op>, h: seq<Op>, ttl: int, q: string)
    requires h0 <= h
    ensures Started(h0, ttl) <= Started(h, ttl)
    ensures LaunchesOf(Started(h0, ttl), q) <= LaunchesOf(Started(h, ttl), q)
    ensures LaunchesOf(Started(h, ttl), q) <= LaunchesOf(Started(h0, ttl), q) + Attempts(h, q) - Attempts(h0, q)
  {
    if h != h0 {
      var init := h[..|h| - 1];
      StartedGrows(h0, init, ttl, q);
      assert Started(h, ttl) == Started(init, ttl) ||
             Started(h, ttl)[..|Started(h, ttl)| - 1] == Started(init, ttl);
    }
  }

  // THE BOUND OF ONE TICK. With any completions, expiries and name collisions in between, the
  // creations started for a pool are at most what the formula says for the count it read, so
  // at most the room below max_nodes by that count; none are started for a pool not visited.
  lemma TickIsBounded(pools: seq<Pool>, pods: seq<Pod>, nodes: seq<Node>, h0: seq<Op>, h: seq<Op>, ttl: int,
                      observed: map<string, nat>, q: string)
    requires IsTick(pools, pods, nodes, h0, h, ttl, observed)
    ensures
      var more := LaunchesOf(Started(h, ttl), q) - LaunchesOf(Started(h0, ttl), q);
      var i := PoolByName(pools, q);
      && more >= 0
      && (q in observed ==> i.Some?)
      && more <= (if q in observed then Wanted(pools, pods, nodes, q, observed[q]) else 0)
      && (q in observed ==> more <= Max(0, pools[i.value].maxNodes - (NodesIn(nodes, q) + observed[q])))
  {
    hide Started, Counted, PodsFor, NodesIn, PoolByName, LaunchesOf, Attempts;
    StartedGrows(h0, h, ttl, q);
    assert PoolTurn(pools, pods, nodes, h0, h, ttl, observed, q);
    if q in observed {
      WantedPoolExists(pods, pools, q);
    } else {
      NoAttempts(h0, h, q);
    }
  }

  // A tick whose listing shows no pod that starves for a pool reads no count and generates no
  // name: all that happens to the tracker is that creations end.
  lemma NoStarvedPodsNoTick(pools: seq<Pool>, pods: seq<Pod>, nodes: seq<Node>, h0: seq<Op>, h: seq<Op>, ttl: int,
                            observed: map<string, nat>)
    requires IsTick(pools, pods, nodes, h0, h, ttl, observed)
    requires forall p, name :: p in pods ==> !StarvesFor(p, pools, name)
    ensures observed == map[] && forall k :: |h0| <= k < |h| ==> h[k].Remove?
    ensures Started(h, ttl) == Started(h0, ttl)
  {
    forall q
      ensures q !in observed && Leaves(h, |h0|, q)
    {
      DemandIsStarvingPods(pods, pools, q);
      hide StarvesFor;
      assert StarvingPods(pods, pools, q) == {};
      assert PoolTurn(pools, pods, nodes, h0, h, ttl, observed, q);
    }
    forall k | |h0| <= k < |h|
      ensures h[k].Remove?
    {
      assert h[k].Remove? || Leaves(h, |h0|, h[k].pool);
    }
    OnlyRemovals(h0, h, ttl);
  }

  lemma {:induction false} OnlyRemovals(h0: seq<Op>, h: seq<Op>, ttl: int)
    requires h0 <= h && forall k :: |h0| <= k < |h| ==> h[k].Remove?
    ensures Started(h, ttl) == Started(h0, ttl)
  {
    if h != h0 {
      OnlyRemovals(h0, h[..|h| - 1], ttl);
    }
  }

  // A tick visits exactly the pools that some listed pod starves for.
  lemma VisitsStarvedPools(pools: seq<Pool>, pods: seq<Pod>, nodes: seq<Node>, h0: seq<Op>, h: seq<Op>, ttl: int,
                           observed: map<string, nat>, q: string)
    requires IsTick(pools, pods, nodes, h0, h, ttl, observed)
    ensures q in observed <==> exists p :: p in pods && StarvesFor(p, pools, q)
  {
    DemandIsStarvingPods(pods, pools, q);
    hide StarvesFor;
    var found := StarvingPods(pods, pools, q);
    if found == {} {
      forall p | p in pods
        ensures !StarvesFor(p, pools, q)
      {
        var i :| 0 <= i < |pods| && pods[i] == p;
        assert i !in found;
      }
    } else {
      var i :| i in found;
      assert pods[i] in pods;
    }
  }

  lemma {:induction false} OrderedBefore(ops: seq<Op>, now: int, k: nat)
    requires Ordered(ops, now) && k < |ops| && ops[k].Count?
    ensures Ordered(ops[..k], ops[k].at) && ops[k].at <= now
    decreases |ops|
  {
    var n := |ops| - 1;
    if k < n {
      OrderedBefore(ops[..n], if ops[n].Add? then ops[n].gcAt else if ops[n].Count? then ops[n].at else now, k);
      assert ops[..n][..k] == ops[..k];
    }
  }

  // The count a tick reads is the number of names in flight, by the history of the tracker.
  lemma CountIsInFlight(ops: seq<Op>, from: nat, ttl: int, pool: string, k: nat, n: nat, now: int)
    requires Ordered(ops, now) && CountedAt(ops, from, ttl, pool, k, n)
    ensures
      var names := OfPool(Run(ops[..k + 1], ttl), pool);
      && n == |names|
      && forall name :: name in names <==>
           InFlight(ops[..k], ttl, name, ops[k].at) && ops[LastAdd(ops[..k], ttl, name).value].pool == pool
  {
    OrderedBefore(ops, now, k);
    assert ops[..k + 1][..k] == ops[..k];
    forall name
      ensures name in OfPool(Run(ops[..k + 1], ttl), pool) <==>
              InFlight(ops[..k], ttl, name, ops[k].at) && ops[LastAdd(ops[..k], ttl, name).value].pool == pool
    {
      AnswersFromHistory(ops[..k], ttl, name, pool, ops[k].at);
    }
  }

  // The generator never repeats a name.
  predicate NewNames(ops: seq<Op>) {
    forall i, j :: 0 <= i < j < |ops| && ops[i].Add? && ops[j].Add? ==> ops[i].name != ops[j].name
  }

  predicate GeneratedIn(ops: seq<Op>, name: string) {
    exists k :: 0 <= k < |ops| && ops[k].Add? && ops[k].name == name
  }

  lemma {:induction false} StartedAreGenerated(ops: seq<Op>, ttl: int)
    ensures forall l :: l in Started(ops, ttl) ==> GeneratedIn(ops, l.node)
  {
    if ops != [] {
      var n := |ops| - 1;
      StartedAreGenerated(ops[..n], ttl);
      forall l | l in Started(ops, ttl)
        ensures GeneratedIn(ops, l.node)
      {
        if l in Started(ops[..n], ttl) {
          var k :| 0 <= k < n && ops[..n][k].Add? && ops[..n][k].name == l.node;
          assert ops[k] == ops[..n][k];
        }
      }
    }
  }

  // With such a generator no two creations of any number of ticks share a node name.
  lemma {:induction false} LaunchedOnce(ops: seq<Op>, ttl: int)
    requires NewNames(ops)
    ensures forall i, j :: 0 <= i < j < |Started(ops, ttl)| ==> Started(ops, ttl)[i].node != Started(ops, ttl)[j].node
    ensures forall l :: l in Started(ops, ttl) ==> GeneratedIn(ops, l.node)
  {
    StartedAreGenerated(ops, ttl);
    if ops != [] {
      var n := |ops| - 1;
      LaunchedOnce(ops[..n], ttl);
      forall l | l in Started(ops[..n], ttl) && ops[n].Add?
        ensures l.node != ops[n].name
      {
        var k :| 0 <= k < n && ops[..n][k].Add? && ops[..n][k].name == l.node;
      }
    }
  }

  // ---- Ticks that nothing disturbs ----

  // The operation meets no completion, no expiry and no collision: what is unexpired at its
  // reading is what was at time t, it ends no creation in flight, and its name is new.
  predicate Calm(entries: map<string, Entry>, op: Op, t: int, ttl: int) {
    var live := Gc(entries, t, ttl);
    match op
    case Remove(name) => name !in live
    case Count(_, at) => Gc(entries, at, ttl) == live
    case Add(_, name, gcAt, addAt) => Gc(entries, gcAt, ttl) == live && name !in live && t <= addAt
  }

  ghost predicate Undisturbed(h: seq<Op>, from: nat, t: int, ttl: int) {
    forall k :: from <= k < |h| ==> Calm(Run(h[..k], ttl), h[k], t, ttl)
  }

  // Creations in flight for a pool.
  function Flying(h: seq<Op>, t: int, ttl: int, q: string): nat {
    |OfPool(Gc(Run(h, ttl), t, ttl), q)|
  }

  lemma CalmStep(entries: map<string, Entry>, op: Op, t: int, ttl: int, q: string)
    requires ttl >= 0 && Calm(entries, op, t, ttl)
    ensures |OfPool(Gc(After(entries, op, ttl), t, ttl), q)| ==
            |OfPool(Gc(entries, t, ttl), q)| + if op.Add? && op.pool == q then 1 else 0
    ensures op.Add? <==> Reserves(entries, op, ttl)
  {
    var live, next := Gc(entries, t, ttl), Gc(After(entries, op, ttl), t, ttl);
    match op
    case Remove(_) => assert next == live;
    case Count(_, at) => assert next == live;
    case Add(pool, name, _, addAt) =>
      assert next == live[name := Entry(pool, addAt)];
      assert OfPool(next, q) == OfPool(live, q) + if pool == q then {name} else {};
  }

  lemma UndisturbedPrefix(h: seq<Op>, from: nat, t: int, ttl: int, a: nat, b: nat)
    requires Undisturbed(h, from, t, ttl) && from <= a && b <= |h|
    ensures Undisturbed(h[..b], a, t, ttl)
  {
    assert forall k :: 0 <= k < b ==> h[..b][..k] == h[..k];
  }

  // Undisturbed, every generated name is one more creation in flight.
  lemma {:induction false} CalmGrowth(h0: seq<Op>, h: seq<Op>, t: int, ttl: int, q: string)
    requires ttl >= 0 && h0 <= h && Undisturbed(h, |h0|, t, ttl)
    ensures Flying(h, t, ttl, q) - Flying(h0, t, ttl, q) == Attempts(h, q) - Attempts(h0, q)
    ensures LaunchesOf(Started(h, ttl), q) - LaunchesOf(Started(h0, ttl), q) == Attempts(h, q) - Attempts(h0, q)
  {
    if h != h0 {
      var n := |h| - 1;
      UndisturbedPrefix(h, |h0|, t, ttl, |h0|, n);
      CalmGrowth(h0, h[..n], t, ttl, q);
      CalmStep(Run(h[..n], ttl), h[n], t, ttl, q);
      assert Started(h, ttl) == Started(h[..n], ttl) ||
             Started(h, ttl)[..|Started(h, ttl)| - 1] == Started(h[..n], ttl);
    }
  }

  // THE EXACT TICK. Undisturbed, a tick reads f in flight for each pool it visits, starts
  // exactly what the formula wants, and leaves max(f, min(pending, max - current)) in flight.
  // None of this depends on the order in which the pools were visited.
  lemma UndisturbedTick(pools: seq<Pool>, pods: seq<Pod>, nodes: seq<Node>, h0: seq<Op>, h: seq<Op>, ttl: int,
                        observed: map<string, nat>, t: int, q: string)
    requires ttl >= 0 && IsTick(pools, pods, nodes, h0, h, ttl, observed) && Undisturbed(h, |h0|, t, ttl)
    ensures
      var f, i := Flying(h0, t, ttl, q), PoolByName(pools, q);
      && (q in observed ==> observed[q] == f)
      && LaunchesOf(Started(h, ttl), q) == LaunchesOf(Started(h0, ttl), q) + Wanted(pools, pods, nodes, q, f)
      && Flying(h, t, ttl, q) == f + Wanted(pools, pods, nodes, q, f)
      && (i.Some? ==> Flying(h, t, ttl, q) ==
                      Max(f, Min(PodsFor(pods, pools, q), pools[i.value].maxNodes - NodesIn(nodes, q))))
  {
    hide Calm, Undisturbed, Flying, Started;
    CalmGrowth(h0, h, t, ttl, q);
    assert PoolTurn(pools, pods, nodes, h0, h, ttl, observed, q);
    if q in observed {
      CalmCount(h0, h, ttl, t, q, observed[q]);
    } else {
      NoAttempts(h0, h, q);
    }
  }

  // The count read by an undisturbed visit is what was in flight when the tick began.
  lemma CalmCount(h0: seq<Op>, h: seq<Op>, ttl: int, t: int, q: string, n: nat)
    requires ttl >= 0 && h0 <= h && Counted(h, |h0|, ttl, q, n) && Undisturbed(h, |h0|, t, ttl)
    ensures n == Flying(h0, t, ttl, q)
  {
    var k: nat :| CountedAt(h, |h0|, ttl, q, k, n);
    assert h[..k + 1][..k] == h[..k] && Run(h[..k + 1], ttl) == Gc(Run(h[..k], ttl), h[k].at, ttl);
    assert Calm(Run(h[..k], ttl), h[k], t, ttl);
    hide Run, Gc, OfPool, Started, Attempts, Undisturbed;
    UndisturbedPrefix(h, |h0|, t, ttl, |h0|, k);
    CalmGrowth(h0, h[..k], t, ttl, q);
    NoAttempts(h0, h[..k], q);
  }

  // Two undisturbed ticks from the same history and the same listings agree for every pool,
  // in whatever order and at whatever moments each of them visited the pools.
  lemma OrderDoesNotMatter(pools: seq<Pool>, pods: seq<Pod>, nodes: seq<Node>, h0: seq<Op>, a: seq<Op>, b: seq<Op>,
                           ttl: int, seenA: map<string, nat>, seenB: map<string, nat>, t: int, q: string)
    requires ttl >= 0
    requires IsTick(pools, pods, nodes, h0, a, ttl, seenA) && Undisturbed(a, |h0|, t, ttl)
    requires IsTick(pools, pods, nodes, h0, b, ttl, seenB) && Undisturbed(b, |h0|, t, ttl)
    ensures LaunchesOf(Started(a, ttl), q) == LaunchesOf(Started(b, ttl), q)
    ensures Flying(a, t, ttl, q) == Flying(b, t, ttl, q) && seenA == seenB
  {
    forall x
      ensures x in seenA ==> seenA[x] == Flying(h0, t, ttl, x)
      ensures x in seenB ==> seenB[x] == Flying(h0, t, ttl, x)
      ensures x in seenA <==> x in seenB
    {
      UndisturbedTick(pools, pods, nodes, h0, a, ttl, seenA, t, x);
      UndisturbedTick(pools, pods, nodes, h0, b, ttl, seenB, t, x);
    }
    UndisturbedTick(pools, pods, nodes, h0, a, ttl, seenA, t, q);
    UndisturbedTick(pools, pods, nodes, h0, b, ttl, seenB, t, q);
    assert seenA.Keys == seenB.Keys;
  }

  // ---- When nothing disturbs ----

  predicate ReadsWithin(op: Op, t: int, last: int) {
    match op
    case Add(_, _, gcAt, addAt) => t <= gcAt <= last && t <= addAt <= last
    case Count(_, at) => t <= at <= last
    case Remove(_) => false
  }

  // Seen from time t: no creation ends, the clock moves by no more than ttl and over no
  // entry's expiry, and the generated names are new.
  predicate Quiet(h: seq<Op>, from: nat, t: int, last: int, ttl: int)
    requires from <= |h|
  {
    var entries := Run(h[..from], ttl);
    && t <= last <= t + ttl
    && (forall k :: from <= k < |h| ==> ReadsWithin(h[k], t, last))
    && (forall n :: n in entries && Live(entries[n], t, ttl) ==> Live(entries[n], last, ttl))
    && (forall k :: from <= k < |h| && h[k].Add? ==> h[k].name !in Gc(entries, t, ttl))
    && NewNames(h[from..])
  }

  // Where the entries of a quiet stretch come from, and that none of them expires in it.
  predicate Sourced(h: seq<Op>, from: nat, t: int, last: int, ttl: int)
    requires from <= |h|
  {
    var entries, start := Run(h, ttl), Run(h[..from], ttl);
    && (forall n :: n in entries && Live(entries[n], t, ttl) ==> Live(entries[n], last, ttl))
    && forall n :: n in Gc(entries, t, ttl) ==> n in Gc(start, t, ttl) || GeneratedIn(h[from..], n)
  }

  // Conditions on the clock, the names and the other goroutines alone make ticks undisturbed;
  // a clock that stands still, with new names and no completion, is the simplest case.
  lemma {:induction false} QuietIsUndisturbed(h: seq<Op>, from: nat, t: int, last: int, ttl: int)
    requires from <= |h| && Quiet(h, from, t, last, ttl)
    ensures Undisturbed(h, from, t, ttl) && Sourced(h, from, t, last, ttl)
    decreases |h|
  {
    if |h| == from {
      assert h[..from] == h;
    } else {
      hide Run, Calm, Sourced, Quiet, Undisturbed;
      var n := |h| - 1;
      QuietShorter(h, from, t, last, ttl);
      QuietIsUndisturbed(h[..n], from, t, last, ttl);
      QuietStep(h, from, t, last, ttl);
      UndisturbedMore(h, from, t, ttl);
    }
  }

  lemma UndisturbedMore(h: seq<Op>, from: nat, t: int, ttl: int)
    requires from < |h| && Undisturbed(h[..|h| - 1], from, t, ttl) && Calm(Run(h[..|h| - 1], ttl), h[|h| - 1], t, ttl)
    ensures Undisturbed(h, from, t, ttl)
  {
    hide Run, Calm;
    var init := h[..|h| - 1];
    forall k | from <= k < |h|
      ensures Calm(Run(h[..k], ttl), h[k], t, ttl)
    {
      if k < |init| {
        assert init[..k] == h[..k] && Calm(Run(init[..k], ttl), init[k], t, ttl);
      }
    }
  }

  lemma QuietShorter(h: seq<Op>, from: nat, t: int, last: int, ttl: int)
    requires from < |h| && Quiet(h, from, t, last, ttl)
    ensures Quiet(h[..|h| - 1], from, t, last, ttl)
  {
    var init := h[..|h| - 1];
    assert init[..from] == h[..from];
    assert forall i :: 0 <= i < |init| - from ==> init[from..][i] == h[from..][i];
  }

  lemma QuietStep(h: seq<Op>, from: nat, t: int, last: int, ttl: int)
    requires from < |h| && Quiet(h, from, t, last, ttl) && Sourced(h[..|h| - 1], from, t, last, ttl)
    ensures Calm(Run(h[..|h| - 1], ttl), h[|h| - 1], t, ttl) && Sourced(h, from, t, last, ttl)
  {
    var n := |h| - 1;
    var init, op := h[..n], h[n];
    assert init[..from] == h[..from] && h[from..][n - from] == op;
    forall name | GeneratedIn(init[from..], name)
      ensures GeneratedIn(h[from..], name) && (op.Add? ==> op.name != name)
    {
      var k :| 0 <= k < n - from && init[from..][k].Add? && init[from..][k].name == name;
      assert h[from..][k] == init[from..][k];
    }
  }

  // ---- What repeated ticks do ----

  // The arithmetic of one undisturbed tick.
  lemma TickClosedForm(pending: nat, current: nat, inFlight: nat, max: nat)
    ensures ToCreate(pending, current, inFlight, max) <= Max(0, max - (current + inFlight))
    ensures inFlight + ToCreate(pending, current, inFlight, max) == Max(inFlight, Min(pending, max - current))
  { }

  datatype Demand = Demand(pending: nat, current: nat)

  // The in-flight count of one pool after a sequence of ticks, each with its own demand.
  function AfterTicks(inFlight: nat, demands: seq<Demand>, max: nat): nat {
    if demands == [] then inFlight
    else
      var before := AfterTicks(inFlight, demands[..|demands| - 1], max);
      var d := demands[|demands| - 1];
      before + ToCreate(d.pending, d.current, before, max)
  }

  function Wish(d: Demand, max: nat): int {
    Min(d.pending, max - d.current)
  }

  // The arithmetic of any sequence of ticks: an upper bound of its start and all the wishes
  // that is attained by one of them.
  lemma {:induction false} AfterTicksIsMaximum(inFlight: nat, demands: seq<Demand>, max: nat)
    ensures AfterTicks(inFlight, demands, max) >= inFlight
    ensures forall d :: d in demands ==> AfterTicks(inFlight, demands, max) >= Wish(d, max)
    ensures AfterTicks(inFlight, demands, max) == inFlight
              || exists d :: d in demands && AfterTicks(inFlight, demands, max) == Wish(d, max)
  {
    if demands != [] {
      var n := |demands| - 1;
      AfterTicksIsMaximum(inFlight, demands[..n], max);
      var d := demands[n];
      TickClosedForm(d.pending, d.current, AfterTicks(inFlight, demands[..n], max), max);
      var before := AfterTicks(inFlight, demands[..n], max);
      assert forall e :: e in demands <==> e in demands[..n] || e == d;
      if before < Wish(d, max) {
        assert AfterTicks(inFlight, demands, max) == Wish(d, max);
      } else if before != inFlight {
        var e :| e in demands[..n] && before == Wish(e, max);
        assert e in demands && AfterTicks(inFlight, demands, max) == Wish(e, max);
      }
    }
  }

  // What one tick asks for a pool; a tick whose listings fail asks for nothing.
  function DemandOf(poll: Poll, pools: seq<Pool>, q: string): Demand {
    if poll.pods.None? || poll.nodes.None? then Demand(0, 0)
    else Demand(PodsFor(poll.pods.value, pools, q), NodesIn(poll.nodes.value, q))
  }

  function Demands(polls: seq<Poll>, pools: seq<Pool>, q: string): (ds: seq<Demand>)
    ensures |ds| == |polls|
    ensures forall i :: 0 <= i < |polls| ==> ds[i] == DemandOf(polls[i], pools, q)
  {
    seq(|polls|, i requires 0 <= i < |polls| => DemandOf(polls[i], pools, q))
  }

  // Tick i of an undisturbed sequence, for a pool with `f` in flight before it.
  lemma TickOfMany(pools: seq<Pool>, polls: seq<Poll>, h: seq<Op>, marks: seq<nat>, ttl: int,
                   seen: seq<map<string, nat>>, t: int, q: string, i: nat)
    requires ttl >= 0 && ValidPools(pools) && PoolByName(pools, q).Some?
    requires AreTicks(pools, polls, h, marks, ttl, seen) && i < |polls|
    requires marks[0] <= marks[i] && Undisturbed(h, marks[0], t, ttl)
    ensures marks[i] <= marks[i + 1] <= |h|
    ensures
      var max := pools[PoolByName(pools, q).value].maxNodes;
      var f, d := Flying(h[..marks[i]], t, ttl, q), DemandOf(polls[i], pools, q);
      var k := ToCreate(d.pending, d.current, f, max);
      && Flying(h[..marks[i + 1]], t, ttl, q) == f + k
      && LaunchesOf(Started(h[..marks[i + 1]], ttl), q) == LaunchesOf(Started(h[..marks[i]], ttl), q) + k
      && (q in seen[i] && polls[i].pods.Some? && polls[i].nodes.Some? ==> seen[i][q] == f)
  {
    assert IsTickAt(pools, polls, h, marks, ttl, seen, i);
    if polls[i].pods.Some? && polls[i].nodes.Some? {
      UndisturbedPrefix(h, marks[0], t, ttl, marks[i], marks[i + 1]);
      UndisturbedTick(pools, polls[i].pods.value, polls[i].nodes.value, h[..marks[i]], h[..marks[i + 1]], ttl,
                      seen[i], t, q);
    }
  }

  // The in-flight count of a pool follows the formula through any undisturbed sequence of
  // real ticks, failed ones included.
  lemma {:induction false} TicksFollowFormula(pools: seq<Pool>, polls: seq<Poll>, h: seq<Op>, marks: seq<nat>, ttl: int,
                                              seen: seq<map<string, nat>>, t: int, q: string, i: nat)
    requires ttl >= 0 && ValidPools(pools) && PoolByName(pools, q).Some?
    requires AreTicks(pools, polls, h, marks, ttl, seen) && i <= |polls|
    requires marks[0] <= |h| && Undisturbed(h, marks[0], t, ttl)
    ensures marks[0] <= marks[i] <= |h|
    ensures
      var max := pools[PoolByName(pools, q).value].maxNodes;
      Flying(h[..marks[i]], t, ttl, q) ==
      AfterTicks(Flying(h[..marks[0]], t, ttl, q), Demands(polls[..i], pools, q), max)
  {
    if i > 0 {
      TicksFollowFormula(pools, polls, h, marks, ttl, seen, t, q, i - 1);
      TickOfMany(pools, polls, h, marks, ttl, seen, t, q, i - 1);
      assert Demands(polls[..i], pools, q)[..i - 1] == Demands(polls[..i - 1], pools, q);
    }
  }

  // THE FIXED POINT OF TICKS. After any undisturbed sequence of ticks a pool has in flight
  // the largest of what it started with and of every tick's min(pending, max - current).
  lemma TicksReachMaximum(pools: seq<Pool>, polls: seq<Poll>, h: seq<Op>, marks: seq<nat>, ttl: int,
                          seen: seq<map<string, nat>>, t: int, q: string)
    requires ttl >= 0 && ValidPools(pools) && PoolByName(pools, q).Some?
    requires AreTicks(pools, polls, h, marks, ttl, seen)
    requires marks[0] <= |h| && Undisturbed(h, marks[0], t, ttl)
    ensures marks[0] <= marks[|polls|] <= |h|
    ensures
      var max := pools[PoolByName(pools, q).value].maxNodes;
      var f, end := Flying(h[..marks[0]], t, ttl, q), Flying(h[..marks[|polls|]], t, ttl, q);
      && end >= f
      && (forall i :: 0 <= i < |polls| ==> end >= Wish(DemandOf(polls[i], pools, q), max))
      && (end == f || exists i :: 0 <= i < |polls| && end == Wish(DemandOf(polls[i], pools, q), max))
  {
    var max := pools[PoolByName(pools, q).value].maxNodes;
    var f, ds := Flying(h[..marks[0]], t, ttl, q), Demands(polls, pools, q);
    TicksFollowFormula(pools, polls, h, marks, ttl, seen, t, q, |polls|);
    assert polls[..|polls|] == polls;
    AfterTicksIsMaximum(f, ds, max);
    forall i | 0 <= i < |polls|
      ensures Wish(DemandOf(polls[i], pools, q), max) <= AfterTicks(f, ds, max)
    {
      assert ds[i] in ds;
    }
    if AfterTicks(f, ds, max) != f {
      var d :| d in ds && AfterTicks(f, ds, max) == Wish(d, max);
      var i :| 0 <= i < |ds| && ds[i] == d;
      assert AfterTicks(f, ds, max) == Wish(DemandOf(polls[i], pools, q), max);
    }
  }

  // Hence a tick that asks of a pool what an earlier one asked starts nothing for it.
  lemma RepeatedDemandIsIdle(pools: seq<Pool>, polls: seq<Poll>, h: seq<Op>, marks: seq<nat>, ttl: int,
                             seen: seq<map<string, nat>>, t: int, q: string, i: nat, j: nat)
    requires ttl >= 0 && ValidPools(pools) && PoolByName(pools, q).Some?
    requires AreTicks(pools, polls, h, marks, ttl, seen) && i < j < |polls|
    requires marks[0] <= |h| && Undisturbed(h, marks[0], t, ttl)
    requires DemandOf(polls[i], pools, q) == DemandOf(polls[j], pools, q)
    ensures marks[j] <= marks[j + 1] <= |h|
    ensures LaunchesOf(Started(h[..marks[j + 1]], ttl), q) == LaunchesOf(Started(h[..marks[j]], ttl), q)
  {
    var max := pools[PoolByName(pools, q).value].maxNodes;
    var f, ds, d := Flying(h[..marks[0]], t, ttl, q), Demands(polls[..j], pools, q), DemandOf(polls[j], pools, q);
    TicksFollowFormula(pools, polls, h, marks, ttl, seen, t, q, j);
    TickOfMany(pools, polls, h, marks, ttl, seen, t, q, j);
    AfterTicksIsMaximum(f, ds, max);
    assert ds[i] == d && d in ds;
    TickClosedForm(d.pending, d.current, AfterTicks(f, ds, max), max);
  }

  // A tick with the same listings as an earlier one creates nothing at all.
  lemma RepeatedTickIsIdle(pools: seq<Pool>, polls: seq<Poll>, h: seq<Op>, marks: seq<nat>, ttl: int,
                           seen: seq<map<string, nat>>, t: int, i: nat, j: nat)
    requires ttl >= 0 && ValidPools(pools)
    requires AreTicks(pools, polls, h, marks, ttl, seen) && i < j < |polls| && polls[i] == polls[j]
    requires marks[0] <= |h| && Undisturbed(h, marks[0], t, ttl)
    ensures marks[j] <= marks[j + 1] <= |h|
    ensures Started(h[..marks[j + 1]], ttl) == Started(h[..marks[j]], ttl)
  {
    assert IsTickAt(pools, polls, h, marks, ttl, seen, j);
    var a, b := h[..marks[j]], h[..marks[j + 1]];
    assert polls[j].pods.Some? && polls[j].nodes.Some? ==>
      IsTick(pools, polls[j].pods.value, polls[j].nodes.value, a, b, ttl, seen[j]);
    assert a <= b;
    hide IsTick, Started, Wanted, PoolByName, DemandOf;
    StartedGrows(a, b, ttl, "");
    forall q
      ensures LaunchesOf(Started(b, ttl), q) == LaunchesOf(Started(a, ttl), q)
    {
      if PoolByName(pools, q).Some? {
        RepeatedDemandIsIdle(pools, polls, h, marks, ttl, seen, t, q, i, j);
      } else if polls[j].pods.Some? && polls[j].nodes.Some? {
        TickIsBounded(pools, polls[j].pods.value, polls[j].nodes.value, a, b, ttl, seen[j], q);
      }
    }
    if Started(a, ttl) != Started(b, ttl) {
      var l := Started(b, ttl);
      LaunchesGrow(Started(a, ttl), l[..|l| - 1], l[|l| - 1].pool);
    }
  }

  lemma {:induction false} LaunchesGrow(a: seq<Launch>, b: seq<Launch>, q: string)
    requires a <= b
    ensures LaunchesOf(a, q) <= LaunchesOf(b, q)
  {
    if a != b {
      LaunchesGrow(a, b[..|b| - 1], q);
    }
  }
}
