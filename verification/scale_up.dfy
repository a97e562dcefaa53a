/** One scale-up tick: count, cap, reserve names, start creations. Everything a tick does to
    the tracker is in the controller's history, so what it counted, what it reserved and what
    it started can be read off the operations themselves. */
module ScaleUp {
  import opened Common
  import opened PoolMatch
  import opened Tracker

  // min(pending - inFlight, max - (current + inFlight)), and nothing when either is not positive.
  function ToCreate(pending: int, current: int, inFlight: int, max: int): nat {
    var capacity := max - (current + inFlight);
    if capacity <= 0 || pending - inFlight <= 0 then 0
    else Min(pending - inFlight, capacity)
  }

  datatype Launch = Launch(pool: string, node: string)

  function LaunchesOf(ls: seq<Launch>, pool: string): nat {
    if ls == [] then 0
    else LaunchesOf(ls[..|ls| - 1], pool) + if ls[|ls| - 1].pool == pool then 1 else 0
  }

  // ---- What the tracker operations say about creations ----

  predicate Reserves(entries: map<string, Entry>, op: Op, ttl: int) {
    op.Add? && op.name !in Gc(entries, op.gcAt, ttl)
  }

  // The creations started along a history: one for each name that was reserved, in order.
  function Started(ops: seq<Op>, ttl: int): seq<Launch> {
    if ops == [] then []
    else
      var init, op := ops[..|ops| - 1], ops[|ops| - 1];
      Started(init, ttl) + if Reserves(Run(init, ttl), op, ttl) then [Launch(op.pool, op.name)] else []
  }

  // Names generated for a pool, reserved or not.
  function Attempts(ops: seq<Op>, pool: string): nat {
    if ops == [] then 0
    else Attempts(ops[..|ops| - 1], pool) + if ops[|ops| - 1].Add? && ops[|ops| - 1].pool == pool then 1 else 0
  }

  predicate Concerns(op: Op, pool: string) {
    (op.Add? || op.Count?) && op.pool == pool
  }

  // From position `from` on, the history does nothing for the pool.
  predicate Leaves(ops: seq<Op>, from: nat, pool: string) {
    forall j :: from <= j < |ops| ==> !Concerns(ops[j], pool)
  }

  // From position `from` on, the pool is counted once, at position k, with the answer n: the
  // unexpired entries of the pool at that reading. Names are generated only after that.
  ghost predicate CountedAt(ops: seq<Op>, from: nat, ttl: int, pool: string, k: nat, n: nat) {
    && from <= k < |ops| && ops[k].Count? && ops[k].pool == pool
    && n == |OfPool(Run(ops[..k + 1], ttl), pool)|
    && forall j :: from <= j < |ops| && j != k && Concerns(ops[j], pool) ==> j > k && ops[j].Add?
  }

  ghost predicate Counted(ops: seq<Op>, from: nat, ttl: int, pool: string, n: nat) {
    exists k: nat :: CountedAt(ops, from, ttl, pool, k, n)
  }

  // What a tick may start for one pool, by name: it does not depend on when the pool is visited.
  function Wanted(pools: seq<Pool>, pods: seq<Pod>, nodes: seq<Node>, name: string, inFlight: nat): nat {
    var i := PoolByName(pools, name);
    if i.None? then 0
    else ToCreate(PodsFor(pods, pools, name), NodesIn(nodes, name), inFlight, pools[i.value].maxNodes)
  }

  // What a tick does for pool q between the histories h0 and h. `observed` holds the count it
  // read for each pool it visited.
  ghost predicate PoolTurn(pools: seq<Pool>, pods: seq<Pod>, nodes: seq<Node>, h0: seq<Op>, h: seq<Op>, ttl: int,
                           observed: map<string, nat>, q: string)
  {
    if q !in observed then Leaves(h, |h0|, q)
    else
      && Counted(h, |h0|, ttl, q, observed[q])
      && Attempts(h, q) == Attempts(h0, q) + Wanted(pools, pods, nodes, q, observed[q])
  }

  // A whole tick visits exactly the pools that starved pods ask for.
  ghost predicate IsTick(pools: seq<Pool>, pods: seq<Pod>, nodes: seq<Node>, h0: seq<Op>, h: seq<Op>, ttl: int,
                         observed: map<string, nat>)
  {
    && h0 <= h
    && (forall q :: q in observed <==> PodsFor(pods, pools, q) > 0)
    && forall q :: PoolTurn(pools, pods, nodes, h0, h, ttl, observed, q)
  }

  lemma {:induction false} NoAttempts(h0: seq<Op>, h: seq<Op>, q: string)
    requires h0 <= h && Leaves(h, |h0|, q)
    ensures Attempts(h, q) == Attempts(h0, q)
  {
    if h != h0 {
      NoAttempts(h0, h[..|h| - 1], q);
    }
  }

  // Names generated for a pool after its count leave the count as it was.
  lemma CountStays(h0: seq<Op>, h1: seq<Op>, h2: seq<Op>, ttl: int, q: string, n: nat)
    requires h0 < h1 <= h2 && CountedAt(h1, |h0|, ttl, q, |h1| - 1, n)
    requires forall k :: |h1| <= k < |h2| && Concerns(h2[k], q) ==> h2[k].Add?
    ensures Counted(h2, |h0|, ttl, q, n)
  {
    assert h2[..|h1|] == h1 == h1[..|h1|];
    assert CountedAt(h2, |h0|, ttl, q, |h1| - 1, n);
  }

  // Operations that leave q alone keep its turn as it is.
  lemma TurnStays(pools: seq<Pool>, pods: seq<Pod>, nodes: seq<Node>, h0: seq<Op>, h1: seq<Op>, h2: seq<Op>, ttl: int,
                  observed: map<string, nat>, q: string)
    requires h0 <= h1 <= h2 && Leaves(h2, |h1|, q)
    requires PoolTurn(pools, pods, nodes, h0, h1, ttl, observed, q)
    ensures PoolTurn(pools, pods, nodes, h0, h2, ttl, observed, q)
  {
    if q in observed {
      var k: nat :| CountedAt(h1, |h0|, ttl, q, k, observed[q]);
      assert h2[..k + 1] == h1[..k + 1];
      assert CountedAt(h2, |h0|, ttl, q, k, observed[q]);
      NoAttempts(h1, h2, q);
    }
  }

  // A pool's own visit is its turn, when nothing was done for it before in the tick.
  lemma TurnTaken(pools: seq<Pool>, pods: seq<Pod>, nodes: seq<Node>, h0: seq<Op>, h1: seq<Op>, h2: seq<Op>, ttl: int,
                  observed: map<string, nat>, q: string, n: nat)
    requires h0 <= h1 <= h2 && Leaves(h1, |h0|, q)
    requires PoolTurn(pools, pods, nodes, h1, h2, ttl, map[q := n], q)
    ensures PoolTurn(pools, pods, nodes, h0, h2, ttl, observed[q := n], q)
  {
    var k: nat :| CountedAt(h2, |h1|, ttl, q, k, n);
    assert CountedAt(h2, |h0|, ttl, q, k, n);
    NoAttempts(h0, h1, q);
  }

  // What one round of ticking learns from the cluster; either listing may fail.
  datatype Poll = Poll(pods: Option<seq<Pod>>, nodes: Option<seq<Node>>)

  // Tick i takes the history from length marks[i] to length marks[i + 1].
  ghost predicate IsTickAt(pools: seq<Pool>, polls: seq<Poll>, h: seq<Op>, marks: seq<nat>, ttl: int,
                           seen: seq<map<string, nat>>, i: nat)
    requires i < |polls| == |seen| && |marks| == |polls| + 1
  {
    && marks[i] <= marks[i + 1] <= |h|
    && if polls[i].pods.None? || polls[i].nodes.None? then marks[i + 1] == marks[i]
       else IsTick(pools, polls[i].pods.value, polls[i].nodes.value, h[..marks[i]], h[..marks[i + 1]], ttl, seen[i])
  }

  ghost predicate AreTicks(pools: seq<Pool>, polls: seq<Poll>, h: seq<Op>, marks: seq<nat>, ttl: int,
                           seen: seq<map<string, nat>>)
  {
    && |seen| == |polls| && |marks| == |polls| + 1
    && forall i: nat :: i < |polls| ==> IsTickAt(pools, polls, h, marks, ttl, seen, i)
  }

  class Controller {
    const pools: seq<Pool>
    const creating: PendingTracker
    var now: int
    var launched: seq<Launch>  // createNode goroutines started, in order
    ghost var history: seq<Op>  // every tracker operation, the goroutines' included

    // The tracker is what its history makes it, and exactly the reserved names were started.
    ghost predicate Valid()
      reads this, creating
    {
      && creating.ttl >= 0
      && creating.entries == Run(history, creating.ttl)
      && launched == Started(history, creating.ttl)
      && Ordered(history, now)
    }

    constructor (pools: seq<Pool>, nodeReadyTimeout: nat, now: int)
      ensures Valid() && fresh(creating) && creating.ttl == nodeReadyTimeout
      ensures this.pools == pools && history == [] && launched == []
    {
      this.pools, this.now := pools, now;
      creating := new PendingTracker(nodeReadyTimeout);
      launched, history := [], [];
    }

    method ReadClock() returns (t: int)
      requires Valid()
      modifies this`now
      ensures Valid() && t == now >= old(now)
    {
      var late: int := *;
      OrderedLater(history, now, now + Max(0, late));
      now := now + Max(0, late);
      t := now;
    }

    // Other goroutines run: any creations end now and drop their entries.
    method Interfere()
      requires Valid()
      modifies this`history, creating
      ensures Valid() && old(history) <= history
      ensures forall k :: |old(history)| <= k < |history| ==> history[k].Remove?
    {
      var ended: set<string> := *;
      while ended != {}
        invariant Valid() && old(history) <= history
        invariant forall k :: |old(history)| <= k < |history| ==> history[k].Remove?
        decreases |ended|
      {
        var name :| name in ended;
        ended := ended - {name};
        creating.Remove(name);
        Record(Op.Remove(name));
      }
    }

    ghost method Record(op: Op)
      requires creating.ttl >= 0 && creating.entries == After(Run(history, creating.ttl), op, creating.ttl)
      requires launched == Started(history, creating.ttl) +
                           if Reserves(Run(history, creating.ttl), op, creating.ttl)
                           then [Launch(op.pool, op.name)] else []
      requires Ordered(history + [op], now)
      modifies this`history
      ensures Valid() && history == old(history) + [op]
    {
      history := history + [op];
      assert history[..|history| - 1] == old(history);
    }

    // One turn of the creation loop. A name that is already tracked is skipped and its slot
    // is lost.
    method StartOne(pool: string)
      requires Valid()
      modifies this, creating
      ensures Valid() && old(history) < history
      ensures forall k :: |old(history)| <= k < |history| - 1 ==> history[k].Remove?
      ensures history[|history| - 1].Add? && history[|history| - 1].pool == pool
    {
      var nodeName: string := *;
      Interfere();
      var gcAt := ReadClock();
      var addAt := ReadClock();
      var ok := creating.Add(pool, nodeName, gcAt, addAt);
      if ok {
        launched := launched + [Launch(pool, nodeName)];
      }
      Record(Op.Add(pool, nodeName, gcAt, addAt));
    }

    // Exactly `toCreate` names are generated. Each one is started if and only if it could be
    // reserved, which `Valid` says of the whole history.
    method StartCreations(pool: string, toCreate: nat)
      requires Valid()
      modifies this, creating
      ensures Valid() && old(history) <= history
      ensures Attempts(history, pool) == Attempts(old(history), pool) + toCreate
      ensures forall k :: |old(history)| <= k < |history| ==>
                history[k].Remove? || (history[k].Add? && history[k].pool == pool)
    {
      hide Valid;
      for i := 0 to toCreate
        invariant Valid() && old(history) <= history
        invariant Attempts(history, pool) == Attempts(old(history), pool) + i
        invariant forall k :: |old(history)| <= k < |history| ==>
                    history[k].Remove? || (history[k].Add? && history[k].pool == pool)
      {
        ghost var before := history;
        StartOne(pool);
        NoAttempts(before, history[..|history| - 1], pool);
      }
    }

    // The pool's count, after whatever ended before it.
    method CountPool(pool: string) returns (inFlight: nat)
      requires Valid()
      modifies this, creating
      ensures Valid() && old(history) < history
      ensures CountedAt(history, |old(history)|, creating.ttl, pool, |history| - 1, inFlight)
      ensures forall k :: |old(history)| <= k < |history| - 1 ==> history[k].Remove?
      ensures history[|history| - 1].Count? && history[|history| - 1].pool == pool
    {
      hide Run, Started, OfPool, Gc;
      Interfere();
      var at := ReadClock();
      inFlight := creating.Count(pool, at);
      Record(Op.Count(pool, at));
      assert history[..|history|] == history;
    }

    // The body of the per-pool loop. `inFlight` is the count it read.
    method ScaleUpPool(pool: Pool, count: nat, current: nat) returns (inFlight: nat)
      requires Valid()
      modifies this, creating
      ensures Valid() && old(history) <= history
      ensures Counted(history, |old(history)|, creating.ttl, pool.name, inFlight)
      ensures Attempts(history, pool.name) ==
              Attempts(old(history), pool.name) + ToCreate(count, current, inFlight, pool.maxNodes)
      ensures forall q :: q != pool.name ==> Leaves(history, |old(history)|, q)
    {
      hide Valid;
      inFlight := CountPool(pool.name);
      ghost var counted := history;
      NoAttempts(old(history), counted[..|counted| - 1], pool.name);
      var capacity := pool.maxNodes - (current + inFlight);
      if capacity <= 0 {
        return;
      }
      var toCreate := count - inFlight;
      if toCreate <= 0 {
        return;
      }
      if toCreate > capacity {
        toCreate := capacity;
      }
      StartCreations(pool.name, toCreate);
      CountStays(old(history), counted, history, creating.ttl, pool.name, inFlight);
    }

    // One turn of the loop over the pending pools; a name without a pool is skipped.
    method VisitPool(poolName: string, count: nat, current: nat, ghost pods: seq<Pod>, ghost nodes: seq<Node>)
      returns (ghost inFlight: nat)
      requires Valid()
      requires count == PodsFor(pods, pools, poolName) && current == NodesIn(nodes, poolName)
      modifies this, creating
      ensures Valid() && old(history) <= history
      ensures if PoolByName(pools, poolName).None? then history == old(history)
              else PoolTurn(pools, pods, nodes, old(history), history, creating.ttl, map[poolName := inFlight],
                            poolName)
      ensures forall q :: q != poolName ==> Leaves(history, |old(history)|, q)
    {
      inFlight := 0;
      var i := PoolByName(pools, poolName);
      if i.None? {
        return;
      }
      inFlight := ScaleUpPool(pools[i.value], count, current);
    }

    // One tick. The pools are visited in any order.
    method ScaleUp(podsAnswer: Option<seq<Pod>>, nodesAnswer: Option<seq<Node>>)
      returns (ok: bool, ghost observed: map<string, nat>)
      requires Valid()
      modifies this, creating
      ensures Valid() && old(history) <= history
      ensures ok <==> podsAnswer.Some? && nodesAnswer.Some?
      ensures !ok ==> history == old(history)
      ensures ok ==> IsTick(pools, podsAnswer.value, nodesAnswer.value, old(history), history, creating.ttl, observed)
    {
      observed := map[];
      if podsAnswer.None? {
        return false, observed;
      }
      var pendingByPool := GroupPendingByPool(podsAnswer.value, pools);
      if nodesAnswer.None? {
        return false, observed;
      }
      var nodesByPool := CountNodesByPool(nodesAnswer.value);
      ok := true;
      observed := ScaleUpPools(pendingByPool, nodesByPool, podsAnswer.value, nodesAnswer.value);
    }

    method ScaleUpPools(pendingByPool: map<string, nat>, nodesByPool: map<string, nat>,
                        ghost pods: seq<Pod>, ghost nodes: seq<Node>)
      returns (ghost observed: map<string, nat>)
      requires Valid()
      requires forall q :: Get(pendingByPool, q) == PodsFor(pods, pools, q)
      requires forall q :: q in pendingByPool <==> PodsFor(pods, pools, q) > 0
      requires forall q :: Get(nodesByPool, q) == NodesIn(nodes, q)
      modifies this, creating
      ensures Valid() && IsTick(pools, pods, nodes, old(history), history, creating.ttl, observed)
    {
      observed := map[];
      ghost var h0 := history;
      var rest := pendingByPool.Keys;
      assert forall q :: PoolTurn(pools, pods, nodes, h0, history, creating.ttl, observed, q);
      hide Valid, PoolTurn;
      while rest != {}
        invariant Valid() && h0 <= history && rest <= pendingByPool.Keys
        invariant observed.Keys == pendingByPool.Keys - rest
        invariant forall q :: PoolTurn(pools, pods, nodes, h0, history, creating.ttl, observed, q)
        decreases |rest|
      {
        var poolName :| poolName in rest;
        ghost var h1, was := history, observed;
        WantedPoolExists(pods, pools, poolName);
        ghost var n := VisitPool(poolName, Get(pendingByPool, poolName), Get(nodesByPool, poolName), pods, nodes);
        observed := observed[poolName := n];
        forall q
          ensures PoolTurn(pools, pods, nodes, h0, history, creating.ttl, observed, q)
        {
          TickGoesOn(pools, pods, nodes, h0, h1, history, creating.ttl, was, poolName, n, q);
        }
        rest := rest - {poolName};
      }
    }

    // Ticks one after the other, as the control loop runs them. What ends in between is part
    // of the interference of the next tick.
    method ScaleUpTicks(polls: seq<Poll>) returns (ghost marks: seq<nat>, ghost seen: seq<map<string, nat>>)
      requires Valid()
      modifies this, creating
      ensures Valid() && old(history) <= history
      ensures AreTicks(pools, polls, history, marks, creating.ttl, seen)
      ensures marks[0] == |old(history)| && marks[|polls|] == |history|
    {
      hide Valid, IsTick;
      marks, seen := [|history|], [];
      for i := 0 to |polls|
        invariant Valid() && old(history) <= history
        invariant |seen| == i && |marks| == i + 1
        invariant AreTicks(pools, polls[..i], history, marks, creating.ttl, seen)
        invariant marks[0] == |old(history)| && marks[i] == |history|
      {
        ghost var h, marks0, seen0 := history, marks, seen;
        var ok, observed := ScaleUp(polls[i].pods, polls[i].nodes);
        marks, seen := marks + [|history|], seen + [observed];
        AppendTick(pools, polls, h, history, marks0, marks, creating.ttl, seen0, seen, i);
      }
      assert polls[..|polls|] == polls;
    }
  }

  lemma AppendTick(pools: seq<Pool>, polls: seq<Poll>, h: seq<Op>, h2: seq<Op>, marks: seq<nat>, marks2: seq<nat>,
                   ttl: int, seen: seq<map<string, nat>>, seen2: seq<map<string, nat>>, i: nat)
    requires i < |polls| && h <= h2 && AreTicks(pools, polls[..i], h, marks, ttl, seen)
    requires marks[i] == |h| && marks2 == marks + [|h2|] && |seen2| == i + 1 && seen2[..i] == seen
    requires if polls[i].pods.None? || polls[i].nodes.None? then h2 == h
             else IsTick(pools, polls[i].pods.value, polls[i].nodes.value, h, h2, ttl, seen2[i])
    ensures AreTicks(pools, polls[..i + 1], h2, marks2, ttl, seen2)
  {
    hide IsTick;
    var done := polls[..i + 1];
    forall j: nat | j < |done|
      ensures IsTickAt(pools, done, h2, marks2, ttl, seen2, j)
    {
      if j < i {
        assert IsTickAt(pools, polls[..i], h, marks, ttl, seen, j);
        assert h2[..marks[j]] == h[..marks[j]] && h2[..marks[j + 1]] == h[..marks[j + 1]];
        assert seen2[j] == seen[j];
      } else {
        assert h2[..marks2[i]] == h && h2[..marks2[i + 1]] == h2;
      }
    }
  }

  // One more visit of a tick, seen by every pool.
  lemma TickGoesOn(pools: seq<Pool>, pods: seq<Pod>, nodes: seq<Node>, h0: seq<Op>, h1: seq<Op>, h2: seq<Op>, ttl: int,
                   observed: map<string, nat>, name: string, n: nat, q: string)
    requires h0 <= h1 <= h2 && name !in observed
    requires PoolTurn(pools, pods, nodes, h0, h1, ttl, observed, q)
    requires q != name ==> Leaves(h2, |h1|, q)
    requires PoolTurn(pools, pods, nodes, h1, h2, ttl, map[name := n], name)
    ensures PoolTurn(pools, pods, nodes, h0, h2, ttl, observed[name := n], q)
  {
    if q == name {
      TurnTaken(pools, pods, nodes, h0, h1, h2, ttl, observed, q, n);
    } else {
      TurnStays(pools, pods, nodes, h0, h1, h2, ttl, observed, q);
    }
  }
}
