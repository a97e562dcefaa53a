/** A scale-down tick, as the code runs it, is a run of the fleet's step system. What that means
    for a whole life of ticks is in FleetLife. */
module FleetTicks {
  import opened Common
  import opened PoolMatch
  import World
  import Drain
  import opened ScaleDown
  import opened ScaleDownTheorems
  import opened Fleet

  // Names of the pool's nodes from position k of the listing on.
  function NamesFrom(nodes: seq<Node>, pool: string, k: nat): set<string> {
    set i | k <= i < |nodes| && NodeIn(nodes[i], pool) :: nodes[i].name
  }

  predicate UniqueNames(nodes: seq<Node>) {
    forall i, j :: 0 <= i < j < |nodes| ==> nodes[i].name != nodes[j].name
  }

  lemma {:induction false} NamesAreCounted(nodes: seq<Node>, pool: string)
    requires UniqueNames(nodes)
    ensures |NamesFrom(nodes, pool, 0)| == NodesIn(nodes, pool)
  {
    if nodes == [] {
      assert NamesFrom(nodes, pool, 0) == {};
    } else {
      var n := |nodes| - 1;
      NamesAreCounted(nodes[..n], pool);
      NamesSplit(nodes, pool);
    }
  }

  lemma NamesSplit(nodes: seq<Node>, pool: string)
    requires UniqueNames(nodes) && nodes != []
    ensures
      var n := |nodes| - 1;
      var before := NamesFrom(nodes[..n], pool, 0);
      && NamesFrom(nodes, pool, 0) == before + (if NodeIn(nodes[n], pool) then {nodes[n].name} else {})
      && nodes[n].name !in before
  { }

  lemma Append(l: Limits, s: State, steps: seq<Step>, step: Step)
    requires Legal(l, s, steps) && Enabled(l, Exec(l, s, steps), step)
    requires AlwaysAccounted(l, s, steps) && !step.CountUp?
    ensures Legal(l, s, steps + [step]) && AlwaysAccounted(l, s, steps + [step])
    ensures Exec(l, s, steps + [step]) == Next(l, Exec(l, s, steps), step)
  {
    var n := Exec(l, s, steps);
    SingleStep(l, n, step);
    Chain(l, s, steps, [step]);
  }

  lemma SingleStep(l: Limits, n: State, step: Step)
    requires Enabled(l, n, step) && !step.CountUp?
    ensures Legal(l, n, [step]) && AlwaysAccounted(l, n, [step]) && Exec(l, n, [step]) == Next(l, n, step)
  {
    assert [step][1..] == [] && Legal(l, Next(l, n, step), []);
  }

  // Turn i removed its node from the cluster: its delete succeeded, or failed and took effect
  // all the same, which `applied` decides.
  predicate Removes(nodes: seq<Node>, turns: seq<seq<World.Event>>, opts: Drain.Options, pool: string,
                    applied: nat -> bool, i: nat, ok: bool)
    requires i < |nodes| == |turns|
  {
    && NodeIn(nodes[i], pool) && turns[i] != []
    && Drain.StageOf(Drain.Turn(nodes[i], opts), turns[i]) == Drain.Done(ok)
    && (ok || applied(i))
  }

  // The nodes that the first k turns removed, and how many of those went uncounted.
  function Gone(nodes: seq<Node>, turns: seq<seq<World.Event>>, opts: Drain.Options, pool: string,
                applied: nat -> bool, k: nat): set<string>
    requires k <= |nodes| == |turns|
  {
    if k == 0 then {}
    else
      Gone(nodes, turns, opts, pool, applied, k - 1) +
      if Removes(nodes, turns, opts, pool, applied, k - 1, true)
         || Removes(nodes, turns, opts, pool, applied, k - 1, false) then {nodes[k - 1].name} else {}
  }

  function Uncounted(nodes: seq<Node>, turns: seq<seq<World.Event>>, opts: Drain.Options, pool: string,
                     applied: nat -> bool, k: nat): nat
    requires k <= |nodes| == |turns|
  {
    if k == 0 then 0
    else
      Uncounted(nodes, turns, opts, pool, applied, k - 1) +
      if Removes(nodes, turns, opts, pool, applied, k - 1, false) then 1 else 0
  }

  // A draining tick that began in state s: `gone` have left since, `uncounted` of them without
  // being counted, and the nodes in `coming` are still to have their turn.
  predicate Underway(s: State, n: State, counter: int, gone: set<string>, uncounted: nat, coming: set<string>) {
    && n.mode.Draining? && n.mode.counter == counter
    && n.tracked == s.tracked && n.booting == s.booting
    && n.joined == s.joined - gone && n.faults == s.faults + uncounted
    && coming <= n.mode.todo * n.joined
  }

  // A turn that came to a delete attempt, or to none.
  lemma DeleteStep(l: Limits, s: State, n: State, counter: int, gone: set<string>, uncounted: nat, coming: set<string>,
                   rest: set<string>, name: string, delete: Option<bool>, applied: bool) returns (step: Option<Step>)
    requires Underway(s, n, counter, gone, uncounted, coming)
    requires rest <= coming && name !in rest && (delete.Some? ==> name in coming && counter > l.min)
    ensures step.Some? ==> Enabled(l, n, step.value) && !step.value.CountUp? && !step.value.OutsideJoin?
    ensures Underway(s, if step.Some? then Next(l, n, step.value) else n,
                     counter - if delete == Some(true) then 1 else 0,
                     gone + if delete == Some(true) || (delete == Some(false) && applied) then {name} else {},
                     uncounted + if delete == Some(false) && applied then 1 else 0, rest)
  {
    step := if delete.None? then None
            else Some(if delete.value then DeleteOk(name) else DeleteErr(name, applied));
  }

  // The fleet after the first k turns of a tick that began in state s: exactly the nodes that
  // those turns removed have left, whichever failed deletes took effect.
  ghost predicate AfterTurns(nodes: seq<Node>, turns: seq<seq<World.Event>>, opts: Drain.Options, pool: string,
                             applied: nat -> bool, s: State, k: nat, n: State)
    requires k <= |nodes| == |turns|
  {
    Underway(s, n, NodesIn(nodes, pool) - DeletedIn(nodes, turns, opts, pool, k),
             Gone(nodes, turns, opts, pool, applied, k), Uncounted(nodes, turns, opts, pool, applied, k),
             NamesFrom(nodes, pool, k))
  }

  lemma TurnWasAllowed(pools: seq<Pool>, nodes: seq<Node>, turns: seq<seq<World.Event>>, opts: Drain.Options,
                       p: nat, k: nat)
    requires ValidPools(pools) && p < |pools| && k < |nodes| == |turns| && TurnOk(pools, nodes, turns, opts, k)
    requires NodeIn(nodes[k], pools[p].name) && turns[k] != []
    ensures NodesIn(nodes, pools[p].name) - DeletedIn(nodes, turns, opts, pools[p].name, k) > pools[p].minNodes
  {
    assert pools[PoolForNode(nodes[k], pools).value].name == pools[p].name;
  }

  // What turn k adds to the tallies: `delete` is its delete attempt, if it came to one.
  lemma TurnCounts(nodes: seq<Node>, turns: seq<seq<World.Event>>, opts: Drain.Options, pool: string,
                   applied: nat -> bool, k: nat, delete: Option<bool>)
    requires k < |nodes| == |turns|
    requires
      var stage := Drain.StageOf(Drain.Turn(nodes[k], opts), turns[k]);
      delete == if NodeIn(nodes[k], pool) && turns[k] != [] && stage.Done? then Some(stage.deleted) else None
    ensures DeletedIn(nodes, turns, opts, pool, k + 1) ==
            DeletedIn(nodes, turns, opts, pool, k) + if delete == Some(true) then 1 else 0
    ensures Gone(nodes, turns, opts, pool, applied, k + 1) ==
            Gone(nodes, turns, opts, pool, applied, k) +
            if delete == Some(true) || (delete == Some(false) && applied(k)) then {nodes[k].name} else {}
    ensures Uncounted(nodes, turns, opts, pool, applied, k + 1) ==
            Uncounted(nodes, turns, opts, pool, applied, k) + if delete == Some(false) && applied(k) then 1 else 0
  {
    hide Drain.StageOf, NodeIn;
  }

  // One turn is one step of the fleet, or none.
  lemma TurnIsStep(pools: seq<Pool>, nodes: seq<Node>, turns: seq<seq<World.Event>>, opts: Drain.Options, p: nat,
                   l: Limits, applied: nat -> bool, s: State, k: nat, n: State) returns (step: Option<Step>)
    requires ValidPools(pools) && UniqueNames(nodes) && p < |pools| && l.min == pools[p].minNodes
    requires k < |nodes| == |turns| && TurnOk(pools, nodes, turns, opts, k)
    requires AfterTurns(nodes, turns, opts, pools[p].name, applied, s, k, n)
    ensures step.Some? ==> Enabled(l, n, step.value) && !step.value.CountUp? && !step.value.OutsideJoin?
    ensures AfterTurns(nodes, turns, opts, pools[p].name, applied, s, k + 1,
                       if step.Some? then Next(l, n, step.value) else n)
  {
    hide Drain.StageOf, NamesFrom, NodesIn, NodeIn, TurnOk, ValidPools, UniqueNames, PoolForNode, DeletedIn, Gone,
         Uncounted, Underway, Next, Enabled;
    var pool := pools[p].name;
    var stage := Drain.StageOf(Drain.Turn(nodes[k], opts), turns[k]);
    var delete := if NodeIn(nodes[k], pool) && turns[k] != [] && stage.Done? then Some(stage.deleted) else None;
    NamesShift(nodes, pool, k + 1);
    TurnCounts(nodes, turns, opts, pool, applied, k, delete);
    if delete.Some? {
      TurnWasAllowed(pools, nodes, turns, opts, p, k);
    }
    step := DeleteStep(l, s, n, NodesIn(nodes, pool) - DeletedIn(nodes, turns, opts, pool, k),
                       Gone(nodes, turns, opts, pool, applied, k), Uncounted(nodes, turns, opts, pool, applied, k),
                       NamesFrom(nodes, pool, k), NamesFrom(nodes, pool, k + 1), nodes[k].name, delete, applied(k));
  }

  // A scale-down tick of the code, up to any turn, is a legal run of the fleet.
  lemma {:induction false} TurnsAreSteps(pools: seq<Pool>, nodes: seq<Node>, turns: seq<seq<World.Event>>,
      opts: Drain.Options, p: nat, l: Limits, applied: nat -> bool, s: State, k: nat) returns (steps: seq<Step>)
    requires ValidPools(pools) && TickOk(pools, nodes, turns, opts) && UniqueNames(nodes)
    requires p < |pools| && l.min == pools[p].minNodes && k <= |nodes|
    requires s.mode.Idle? && s.joined == NamesFrom(nodes, pools[p].name, 0)
    ensures Legal(l, s, steps) && NoOutsider(steps) && AlwaysAccounted(l, s, steps)
    ensures AfterTurns(nodes, turns, opts, pools[p].name, applied, s, k, Exec(l, s, steps))
  {
    hide AfterTurns, TurnOk, ValidPools, UniqueNames, NamesFrom, Next, Enabled;
    if k == 0 {
      steps := ListingDown(pools, nodes, turns, opts, p, l, applied, s);
    } else {
      steps := TurnsAreSteps(pools, nodes, turns, opts, p, l, applied, s, k - 1);
      var step := TurnIsStep(pools, nodes, turns, opts, p, l, applied, s, k - 1, Exec(l, s, steps));
      if step.Some? {
        Append(l, s, steps, step.value);
        steps := steps + [step.value];
      }
    }
  }

  lemma ListingDown(pools: seq<Pool>, nodes: seq<Node>, turns: seq<seq<World.Event>>, opts: Drain.Options, p: nat,
                    l: Limits, applied: nat -> bool, s: State) returns (steps: seq<Step>)
    requires UniqueNames(nodes) && p < |pools| && |turns| == |nodes|
    requires s.mode.Idle? && s.joined == NamesFrom(nodes, pools[p].name, 0)
    ensures Legal(l, s, steps) && NoOutsider(steps) && AlwaysAccounted(l, s, steps)
    ensures AfterTurns(nodes, turns, opts, pools[p].name, applied, s, 0, Exec(l, s, steps))
  {
    NamesAreCounted(nodes, pools[p].name);
    hide UniqueNames, NamesFrom, NodesIn;
    SingleStep(l, s, ListDown);
    steps := [ListDown];
  }

  lemma NamesShift(nodes: seq<Node>, pool: string, k: nat)
    requires 0 < k <= |nodes| && UniqueNames(nodes)
    ensures NamesFrom(nodes, pool, k) <= NamesFrom(nodes, pool, k - 1)
    ensures nodes[k - 1].name !in NamesFrom(nodes, pool, k)
    ensures NodeIn(nodes[k - 1], pool) ==> nodes[k - 1].name in NamesFrom(nodes, pool, k - 1)
  { }

  // THE FLOOR OF A TICK IN THE CLUSTER. Start a scale-down tick on a pool whose listed nodes
  // are the joined ones. Whichever of its failed deletes took effect, the nodes left are at
  // least min_nodes, less those that left uncounted, if there were so many before.
  lemma TickKeepsTheFloor(pools: seq<Pool>, nodes: seq<Node>, turns: seq<seq<World.Event>>, opts: Drain.Options,
      p: nat, applied: nat -> bool)
    requires ValidPools(pools) && TickOk(pools, nodes, turns, opts) && UniqueNames(nodes)
    requires p < |pools| && NodesIn(nodes, pools[p].name) >= pools[p].minNodes
    ensures
      var pool := pools[p].name;
      var left := NamesFrom(nodes, pool, 0) - Gone(nodes, turns, opts, pool, applied, |nodes|);
      |left| + Uncounted(nodes, turns, opts, pool, applied, |nodes|) >= pools[p].minNodes
  {
    var pool := pools[p].name;
    var l := Limits(pools[p].minNodes, pools[p].maxNodes);
    var s := State(NamesFrom(nodes, pool, 0), {}, {}, Idle, 0);
    var steps := TurnsAreSteps(pools, nodes, turns, opts, p, l, applied, s, |nodes|);
    NamesAreCounted(nodes, pool);
    NeverBelowMin(l, s, steps);
  }
}
