/** One pool over a list of real ticks: scale-up ticks and scale-down ticks of the code, each
    with what happened outside meanwhile, and in between nodes that join, machines that die
    and nodes that others delete. The whole list is one run of the fleet, so the ceiling and
    the floor of runs are the ceiling and the floor of the code. */
module FleetLife {
  import opened Common
  import opened PoolMatch
  import opened Tracker
  import World
  import Drain
  import ScaleUp
  import ScaleDownTheorems
  import opened Fleet
  import FleetTicks
  import FleetScaleUp

  // Up: a scale-up tick that left the tracker with history `h`, read `observed`, and counted
  // the pool at operation `k`, if at all. Down: a scale-down tick and its turns; `applied` says
  // which failed deletes took effect.
  datatype Phase =
    | Up(pods: seq<Pod>, listed: seq<Node>, h: seq<Op>, observed: map<string, nat>, k: nat, out: FleetScaleUp.Outside)
    | Down(nodes: seq<Node>, turns: seq<seq<World.Event>>, applied: nat -> bool)
    | Between(steps: seq<Step>)

  // The configuration, and the pool whose life this is.
  datatype Config = Config(pools: seq<Pool>, p: nat, ttl: int, opts: Drain.Options)

  datatype Moment = Moment(fleet: State, history: seq<Op>)

  ghost predicate ValidConfig(c: Config) {
    ValidPools(c.pools) && c.p < |c.pools|
  }

  ghost function LimitsOf(c: Config): Limits
    requires ValidConfig(c)
  {
    Limits(c.pools[c.p].minNodes, c.pools[c.p].maxNodes)
  }

  // The listing shows exactly the pool's nodes.
  predicate Shows(nodes: seq<Node>, q: string, joined: set<string>) {
    FleetTicks.UniqueNames(nodes) && FleetTicks.NamesFrom(nodes, q, 0) == joined
  }

  predicate IsBetween(step: Step) {
    step.Join? || step.GiveUp? || step.OutsideDelete?
  }

  ghost predicate Possible(c: Config, m: Moment, phase: Phase)
    requires ValidConfig(c)
  {
    var q := c.pools[c.p].name;
    match phase
    case Up(pods, listed, h, observed, k, _) =>
      && Shows(listed, q, m.fleet.joined)
      && ScaleUp.IsTick(c.pools, pods, listed, m.history, h, c.ttl, observed)
      && (q in observed ==> ScaleUp.CountedAt(h, |m.history|, c.ttl, q, k, observed[q]))
    case Down(nodes, turns, _) =>
      Shows(nodes, q, m.fleet.joined) && ScaleDownTheorems.TickOk(c.pools, nodes, turns, c.opts)
    case Between(steps) => Legal(LimitsOf(c), m.fleet, steps) && forall i :: 0 <= i < |steps| ==> IsBetween(steps[i])
  }

  ghost function After(c: Config, m: Moment, phase: Phase): Moment
    requires ValidConfig(c) && Possible(c, m, phase)
  {
    var q, s := c.pools[c.p].name, m.fleet;
    match phase
    case Up(_, _, h, _, _, out) =>
      var e := FleetScaleUp.MachinesAt(h, |m.history|, |h|, q, c.ttl, out, FleetScaleUp.Machines(s.joined, s.booting));
      Moment(State(e.joined, OfPool(Run(h, c.ttl), q), e.booting, Idle, s.faults), h)
    case Down(nodes, turns, applied) =>
      var gone := FleetTicks.Gone(nodes, turns, c.opts, q, applied, |nodes|);
      var uncounted := FleetTicks.Uncounted(nodes, turns, c.opts, q, applied, |nodes|);
      m.(fleet := s.(joined := s.joined - gone, faults := s.faults + uncounted))
    case Between(steps) => m.(fleet := Exec(LimitsOf(c), s, steps))
  }

  ghost predicate IsLife(c: Config, m: Moment, phases: seq<Phase>)
    requires ValidConfig(c)
    decreases |phases|
  {
    phases == [] || (Possible(c, m, phases[0]) && IsLife(c, After(c, m, phases[0]), phases[1..]))
  }

  ghost function End(c: Config, m: Moment, phases: seq<Phase>): Moment
    requires ValidConfig(c) && IsLife(c, m, phases)
    decreases |phases|
  {
    if phases == [] then m else End(c, After(c, m, phases[0]), phases[1..])
  }

  // The count of a scale-up tick covers the nodes of that moment, as far as max_nodes.
  ghost predicate Covering(c: Config, m: Moment, phase: Phase)
    requires ValidConfig(c)
  {
    phase.Up? ==>
      FleetScaleUp.CountCovers(
        FleetScaleUp.PartOf(c.pools, phase.pods, phase.listed, m.history, c.ttl, phase.observed, c.pools[c.p].name,
                            phase.k, phase.out),
        LimitsOf(c), m.fleet, phase.h)
  }

  ghost predicate AlwaysCovering(c: Config, m: Moment, phases: seq<Phase>)
    requires ValidConfig(c) && IsLife(c, m, phases)
    decreases |phases|
  {
    phases == [] || (Covering(c, m, phases[0]) && AlwaysCovering(c, After(c, m, phases[0]), phases[1..]))
  }

  // Between ticks the fleet's tracked names are those of the tracker's history.
  predicate AtRest(c: Config, m: Moment)
    requires c.p < |c.pools|
  {
    m.fleet.mode.Idle? && m.fleet.tracked == OfPool(Run(m.history, c.ttl), c.pools[c.p].name)
  }

  lemma FoundByName(pools: seq<Pool>, p: nat)
    requires ValidPools(pools) && p < |pools|
    ensures PoolByName(pools, pools[p].name) == Some(p)
  { }

  lemma UpIsRun(c: Config, m: Moment, phase: Phase) returns (steps: seq<Step>)
    requires ValidConfig(c) && AtRest(c, m) && phase.Up? && Possible(c, m, phase)
    ensures Legal(LimitsOf(c), m.fleet, steps) && NoOutsider(steps)
    ensures Exec(LimitsOf(c), m.fleet, steps) == After(c, m, phase).fleet
    ensures Covering(c, m, phase) ==> AlwaysAccounted(LimitsOf(c), m.fleet, steps)
  {
    var q := c.pools[c.p].name;
    FoundByName(c.pools, c.p);
    FleetTicks.NamesAreCounted(phase.listed, q);
    hide Run, OfPool, FleetScaleUp.MachinesAt, FleetScaleUp.CountCovers, FleetScaleUp.PartOf, ScaleUp.IsTick,
         ScaleUp.CountedAt, FleetTicks.NamesFrom, NodesIn;
    steps := FleetScaleUp.TickIsRun(c.pools, phase.pods, phase.listed, m.history, phase.h, c.ttl, phase.observed, q,
                                    phase.k, LimitsOf(c), m.fleet, phase.out);
  }

  lemma DownIsRun(c: Config, m: Moment, phase: Phase) returns (steps: seq<Step>)
    requires ValidConfig(c) && AtRest(c, m) && phase.Down? && Possible(c, m, phase)
    ensures Legal(LimitsOf(c), m.fleet, steps) && NoOutsider(steps)
    ensures Exec(LimitsOf(c), m.fleet, steps) == After(c, m, phase).fleet
    ensures AlwaysAccounted(LimitsOf(c), m.fleet, steps)
  {
    hide Run, OfPool, FleetTicks.Gone, FleetTicks.Uncounted, FleetTicks.NamesFrom, ScaleDownTheorems.TickOk;
    var l, s := LimitsOf(c), m.fleet;
    steps := FleetTicks.TurnsAreSteps(c.pools, phase.nodes, phase.turns, c.opts, c.p, l, phase.applied, s,
                                      |phase.nodes|);
    FleetTicks.Append(l, s, steps, EndDown);
    steps := steps + [EndDown];
  }

  lemma {:induction false} BetweenIsRun(l: Limits, s: State, steps: seq<Step>)
    requires Legal(l, s, steps) && forall i :: 0 <= i < |steps| ==> IsBetween(steps[i])
    ensures NoOutsider(steps) && AlwaysAccounted(l, s, steps)
    ensures Exec(l, s, steps).mode == s.mode && Exec(l, s, steps).tracked == s.tracked
    decreases |steps|
  {
    if steps != [] {
      BetweenIsRun(l, Next(l, s, steps[0]), steps[1..]);
    }
  }

  lemma PhaseIsRun(c: Config, m: Moment, phase: Phase) returns (steps: seq<Step>)
    requires ValidConfig(c) && AtRest(c, m) && Possible(c, m, phase)
    ensures Legal(LimitsOf(c), m.fleet, steps) && NoOutsider(steps)
    ensures Exec(LimitsOf(c), m.fleet, steps) == After(c, m, phase).fleet && AtRest(c, After(c, m, phase))
    ensures Covering(c, m, phase) ==> AlwaysAccounted(LimitsOf(c), m.fleet, steps)
  {
    match phase
    case Up(_, _, _, _, _, _) => steps := UpIsRun(c, m, phase);
    case Down(_, _, _) => steps := DownIsRun(c, m, phase);
    case Between(between) =>
      BetweenIsRun(LimitsOf(c), m.fleet, between);
      steps := between;
  }

  // A LIFE OF REAL TICKS IS A RUN OF THE FLEET, and it accounts for every node if each of its
  // counts covers.
  lemma {:induction false} LifeIsRun(c: Config, m: Moment, phases: seq<Phase>) returns (steps: seq<Step>)
    requires ValidConfig(c) && AtRest(c, m) && IsLife(c, m, phases)
    ensures Legal(LimitsOf(c), m.fleet, steps) && NoOutsider(steps)
    ensures Exec(LimitsOf(c), m.fleet, steps) == End(c, m, phases).fleet && AtRest(c, End(c, m, phases))
    ensures AlwaysCovering(c, m, phases) ==> AlwaysAccounted(LimitsOf(c), m.fleet, steps)
    decreases |phases|
  {
    steps := [];
    if phases != [] {
      hide Possible, After, Covering, AtRest;
      steps := PhaseIsRun(c, m, phases[0]);
      var rest := LifeIsRun(c, After(c, m, phases[0]), phases[1..]);
      Chain(LimitsOf(c), m.fleet, steps, rest);
      steps := steps + rest;
    }
  }

  // THE CEILING OF THE CODE. Over every such life whose counts cover, the nodes joined, tracked
  // or still coming never exceed max_nodes once within it, and never grow while above.
  lemma LifeKeepsTheCeiling(c: Config, m: Moment, phases: seq<Phase>)
    requires ValidConfig(c) && AtRest(c, m) && IsLife(c, m, phases) && AlwaysCovering(c, m, phases)
    ensures |Nodes(End(c, m, phases).fleet)| <= Max(c.pools[c.p].maxNodes, |Nodes(m.fleet)|)
  {
    var steps := LifeIsRun(c, m, phases);
    NeverAboveMax(LimitsOf(c), m.fleet, steps);
  }

  // THE FLOOR OF THE CODE. Over every such life a pool that starts at or above min_nodes falls
  // below it by at most the nodes that left without the controller counting them.
  lemma LifeKeepsTheFloor(c: Config, m: Moment, phases: seq<Phase>)
    requires ValidConfig(c) && AtRest(c, m) && IsLife(c, m, phases)
    requires |m.fleet.joined| >= c.pools[c.p].minNodes
    ensures
      var end := End(c, m, phases).fleet;
      |end.joined| + (end.faults - m.fleet.faults) >= c.pools[c.p].minNodes
  {
    var steps := LifeIsRun(c, m, phases);
    NeverBelowMin(LimitsOf(c), m.fleet, steps);
  }
}
