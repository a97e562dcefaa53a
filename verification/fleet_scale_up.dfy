/** A scale-up tick, as the code runs it, is a run of the fleet's step system. What that means
    for a whole life of ticks is in FleetLife. */
module FleetScaleUp {
  import opened Common
  import opened PoolMatch
  import opened Tracker
  import ScaleUp
  import opened Fleet

  // ---- One tracker operation, seen by pool q ----

  // The entries that the operation collects first have expired.
  function Collected(n: State, entries: map<string, Entry>, op: Op, q: string, ttl: int): State {
    match op
    case Remove(_) => n
    case Count(_, at) => n.(tracked := OfPool(Gc(entries, at, ttl), q))
    case Add(_, _, gcAt, _) => n.(tracked := OfPool(Gc(entries, gcAt, ttl), q))
  }

  // What the operation does then. A creation that ends may leave a machine that lives.
  function StepOf(entries: map<string, Entry>, op: Op, q: string, ttl: int, lives: bool, pending: nat): Option<Step> {
    match op
    case Remove(name) => if name in OfPool(entries, q) then Some(CreationEnds(name, lives)) else None
    case Count(pool, _) => if pool == q then Some(CountUp(pending)) else None
    case Add(pool, name, _, _) =>
      if pool != q then None
      else if ScaleUp.Reserves(entries, op, ttl) then Some(Step.Launch(name)) else Some(Collide)
  }

  lemma {:induction false} ExpireAll(l: Limits, n: State, names: set<string>) returns (steps: seq<Step>)
    requires names <= n.tracked
    ensures Legal(l, n, steps) && NoOutsider(steps) && AlwaysAccounted(l, n, steps)
    ensures Exec(l, n, steps) == n.(tracked := n.tracked - names)
    decreases |names|
  {
    steps := [];
    if names != {} {
      var name :| name in names;
      var m := Next(l, n, Expires(name));
      var rest := ExpireAll(l, m, names - {name});
      steps := Prepend(l, n, Expires(name), rest);
      assert m.tracked - (names - {name}) == n.tracked - names;
    } else {
      assert n.tracked - names == n.tracked;
    }
  }

  function Moved(l: Limits, n: State, step: Option<Step>): State
    requires step.Some? ==> Enabled(l, n, step.value)
  {
    if step.Some? then Next(l, n, step.value) else n
  }

  lemma OpIsSteps(l: Limits, n: State, entries: map<string, Entry>, op: Op, q: string, ttl: int, step: Option<Step>)
    returns (steps: seq<Step>)
    requires n.tracked == OfPool(entries, q)
    requires step.Some? ==> Enabled(l, Collected(n, entries, op, q, ttl), step.value) && !step.value.OutsideJoin?
    ensures Legal(l, n, steps) && NoOutsider(steps)
    ensures Exec(l, n, steps) == Moved(l, Collected(n, entries, op, q, ttl), step)
    ensures (step.Some? ==> Accounted(l, Collected(n, entries, op, q, ttl), step.value)) ==>
              AlwaysAccounted(l, n, steps)
  {
    hide Enabled, Next;
    var c := Collected(n, entries, op, q, ttl);
    steps := ExpireAll(l, n, n.tracked - c.tracked);
    assert n.tracked - (n.tracked - c.tracked) == c.tracked;
    if step.Some? {
      assert Legal(l, c, [step.value]) && Exec(l, c, [step.value]) == Next(l, c, step.value);
      assert Accounted(l, c, step.value) ==> AlwaysAccounted(l, c, [step.value]);
      Chain(l, n, steps, [step.value]);
      steps := steps + [step.value];
    }
  }

  // What the operation leaves of pool q's entries.
  lemma TrackedAfter(entries: map<string, Entry>, op: Op, q: string, ttl: int)
    ensures OfPool(After(entries, op, ttl), q) ==
            match op
            case Remove(name) => OfPool(entries, q) - {name}
            case Count(_, at) => OfPool(Gc(entries, at, ttl), q)
            case Add(pool, name, gcAt, _) =>
              OfPool(Gc(entries, gcAt, ttl), q) +
              if pool == q && ScaleUp.Reserves(entries, op, ttl) then {name} else {}
  { }

  // ---- Nodes that join meanwhile ----

  lemma {:induction false} JoinAll(l: Limits, n: State, names: set<string>) returns (steps: seq<Step>)
    requires names <= n.booting
    ensures Legal(l, n, steps) && NoOutsider(steps) && AlwaysAccounted(l, n, steps)
    ensures Exec(l, n, steps) == n.(joined := n.joined + names, booting := n.booting - names)
    decreases |names|
  {
    steps := [];
    if names != {} {
      var name :| name in names;
      var m := Next(l, n, Join(name));
      var rest := JoinAll(l, m, names - {name});
      steps := Prepend(l, n, Join(name), rest);
      assert m.joined + (names - {name}) == n.joined + names;
      assert m.booting - (names - {name}) == n.booting - names;
    } else {
      assert n.booting - names == n.booting && n.joined + names == n.joined;
    }
  }

  // ---- A whole tick ----

  // The machines of a pool, apart from the tracker.
  datatype Machines = Machines(joined: set<string>, booting: set<string>)

  // What happens outside during a tick: whether the creation that ends at operation j leaves
  // a living machine, and which machines join before it.
  datatype Outside = Outside(lives: nat -> bool, joins: nat -> set<string>)

  function Arrive(m: Machines, names: set<string>): Machines {
    Machines(m.joined + m.booting * names, m.booting - m.booting * names)
  }

  lemma ArriveKeepsAll(m: Machines, names: set<string>, tracked: set<string>)
    ensures
      var n := Arrive(m, names);
      n.joined + tracked + n.booting == m.joined + tracked + m.booting
  { }

  // The machines after one more operation.
  function MachinesAfter(entries: map<string, Entry>, op: Op, q: string, ttl: int, lives: bool, m: Machines): Machines {
    match op
    case Remove(name) => if name in OfPool(entries, q) && !lives then m.(booting := m.booting - {name}) else m
    case Count(_, _) => m
    case Add(pool, name, _, _) =>
      if pool == q && ScaleUp.Reserves(entries, op, ttl) then m.(booting := m.booting + {name}) else m
  }

  // The same after the operations of a history from position `from` to position j.
  function MachinesAt(h: seq<Op>, from: nat, j: nat, q: string, ttl: int, out: Outside, m: Machines): Machines
    requires j <= |h|
  {
    if j <= from then m
    else
      var before := Arrive(MachinesAt(h, from, j - 1, q, ttl, out, m), out.joins(j - 1));
      MachinesAfter(Run(h[..j - 1], ttl), h[j - 1], q, ttl, out.lives(j - 1), before)
  }

  // One pool's part of a tick: where it was counted and with what answer, and what it wanted.
  datatype Part = Part(q: string, ttl: int, from: nat, out: Outside, count: Option<nat>, seen: nat,
                       pending: nat, want: nat)

  // The tick that began in s is in state n, about to do operation j with the machines m.
  ghost predicate View(pt: Part, s: State, h: seq<Op>, j: nat, m: Machines, n: State)
    requires pt.from <= j <= |h|
  {
    && n.tracked == OfPool(Run(h[..j], pt.ttl), pt.q) && n.faults == s.faults
    && n.joined == m.joined && n.booting == m.booting
    && if pt.count.None? || j <= pt.count.value then n.mode == Listed(s.joined)
       else n.mode.Launching? && n.mode.left + ScaleUp.Attempts(h[..j], pt.q)
                                  == pt.want + ScaleUp.Attempts(h[..pt.from], pt.q)
  }

  function PartMachines(pt: Part, s: State, h: seq<Op>, j: nat): Machines
    requires j <= |h|
  {
    MachinesAt(h, pt.from, j, pt.q, pt.ttl, pt.out, Machines(s.joined, s.booting))
  }

  // The pool's part of the history: counted where the part says, then names for the pool.
  ghost predicate PartOk(pt: Part, l: Limits, s: State, h: seq<Op>) {
    && pt.from <= |h|
    && match pt.count
       case None => ScaleUp.Leaves(h, pt.from, pt.q)
       case Some(k) =>
         && ScaleUp.CountedAt(h, pt.from, pt.ttl, pt.q, k, pt.seen)
         && pt.want == ScaleUp.ToCreate(pt.pending, |s.joined|, pt.seen, l.max)
         && ScaleUp.Attempts(h, pt.q) == ScaleUp.Attempts(h[..pt.from], pt.q) + pt.want
  }

  function OpStep(pt: Part, h: seq<Op>, j: nat): Option<Step>
    requires j < |h|
  {
    StepOf(Run(h[..j], pt.ttl), h[j], pt.q, pt.ttl, pt.out.lives(j), pt.pending)
  }

  lemma {:induction false} AttemptsGrow(h: seq<Op>, j: nat, q: string)
    requires j <= |h|
    ensures ScaleUp.Attempts(h[..j], q) <= ScaleUp.Attempts(h, q)
  {
    if j < |h| {
      AttemptsGrow(h[..|h| - 1], j, q);
      assert h[..|h| - 1][..j] == h[..j];
    } else {
      assert h[..j] == h;
    }
  }

  lemma {:induction false} NoneBeforeCount(h: seq<Op>, from: nat, j: nat, q: string)
    requires from <= j <= |h| && forall i :: from <= i < j ==> !ScaleUp.Concerns(h[i], q)
    ensures ScaleUp.Attempts(h[..j], q) == ScaleUp.Attempts(h[..from], q)
  {
    if from < j {
      NoneBeforeCount(h, from, j - 1, q);
      assert h[..j][..j - 1] == h[..j - 1];
    }
  }

  // One operation later.
  lemma OneMore(pt: Part, h: seq<Op>, j: nat)
    requires pt.from <= j < |h|
    ensures Run(h[..j + 1], pt.ttl) == After(Run(h[..j], pt.ttl), h[j], pt.ttl)
    ensures ScaleUp.Attempts(h[..j + 1], pt.q) ==
            ScaleUp.Attempts(h[..j], pt.q) + if h[j].Add? && h[j].pool == pt.q then 1 else 0
  {
    assert h[..j + 1][..j] == h[..j];
  }

  // Where an operation on the pool may stand: the count where the part says, names after it.
  lemma OpPlace(pt: Part, l: Limits, s: State, h: seq<Op>, j: nat)
    requires PartOk(pt, l, s, h) && pt.from <= j < |h|
    ensures pt.count.Some? ==>
              ScaleUp.Attempts(h[..j + 1], pt.q) <= ScaleUp.Attempts(h[..pt.from], pt.q) + pt.want
    ensures h[j].Add? && h[j].pool == pt.q ==> pt.count.Some? && pt.count.value < j
    ensures h[j].Count? ==> (h[j].pool == pt.q <==> pt.count == Some(j))
    ensures pt.count == Some(j) ==>
              && h[j].Count? && pt.seen == |OfPool(Run(h[..j + 1], pt.ttl), pt.q)|
              && pt.want == ScaleUp.ToCreate(pt.pending, |s.joined|, pt.seen, l.max)
              && ScaleUp.Attempts(h[..j], pt.q) == ScaleUp.Attempts(h[..pt.from], pt.q)
  {
    hide Run, ScaleUp.Attempts, ScaleUp.ToCreate;
    AttemptsGrow(h, j + 1, pt.q);
    if pt.count == Some(j) {
      NoneBeforeCount(h, pt.from, j, pt.q);
    }
  }

  // The step that operation j takes is possible.
  lemma StepIsEnabled(pt: Part, l: Limits, s: State, h: seq<Op>, j: nat, m: Machines, n: State)
    requires PartOk(pt, l, s, h) && pt.from <= j < |h| && View(pt, s, h, j, m, n)
    ensures
      var step := OpStep(pt, h, j);
      step.Some? ==> Enabled(l, Collected(n, Run(h[..j], pt.ttl), h[j], pt.q, pt.ttl), step.value)
                     && !step.value.OutsideJoin?
  {
    hide PartOk, Run, After, OfPool, Gc, ScaleUp.Attempts, ScaleUp.ToCreate, ScaleUp.Reserves;
    OneMore(pt, h, j);
    OpPlace(pt, l, s, h, j);
  }

  // It leads to the view after it.
  lemma ViewStep(pt: Part, l: Limits, s: State, h: seq<Op>, j: nat, m: Machines, n: State)
    requires PartOk(pt, l, s, h) && pt.from <= j < |h| && View(pt, s, h, j, m, n)
    requires
      var step := OpStep(pt, h, j);
      step.Some? ==> Enabled(l, Collected(n, Run(h[..j], pt.ttl), h[j], pt.q, pt.ttl), step.value)
    ensures
      var entries := Run(h[..j], pt.ttl);
      View(pt, s, h, j + 1, MachinesAfter(entries, h[j], pt.q, pt.ttl, pt.out.lives(j), m),
           Moved(l, Collected(n, entries, h[j], pt.q, pt.ttl), OpStep(pt, h, j)))
  {
    hide PartOk, Run, After, OfPool, Gc, ScaleUp.Attempts, ScaleUp.ToCreate, ScaleUp.Reserves;
    OneMore(pt, h, j);
    OpPlace(pt, l, s, h, j);
    TrackedAfter(Run(h[..j], pt.ttl), h[j], pt.q, pt.ttl);
    match h[j]
    case Remove(name) =>
      if name !in n.tracked {
        assert n.tracked - {name} == n.tracked;
      }
    case Count(_, _) =>
    case Add(_, _, _, _) =>
  }

  // The count covers the nodes of that moment, as far as max_nodes.
  ghost predicate CountCovers(pt: Part, l: Limits, s: State, h: seq<Op>) {
    pt.count.Some? ==>
      var k := pt.count.value;
      k < |h| &&
      var m := PartMachines(pt, s, h, k);
      |s.joined| + pt.seen >= Min(|m.joined + OfPool(Run(h[..k + 1], pt.ttl), pt.q) + m.booting|, l.max)
  }

  lemma CountIsAccounted(pt: Part, l: Limits, s: State, h: seq<Op>, j: nat, n: State)
    requires PartOk(pt, l, s, h) && pt.from <= j < |h| && CountCovers(pt, l, s, h)
    requires View(pt, s, h, j, Arrive(PartMachines(pt, s, h, j), pt.out.joins(j)), n)
    ensures
      var step := OpStep(pt, h, j);
      step.Some? ==> Accounted(l, Collected(n, Run(h[..j], pt.ttl), h[j], pt.q, pt.ttl), step.value)
  {
    hide PartOk, Run, Arrive, ScaleUp.Attempts, ScaleUp.Reserves, ScaleUp.ToCreate, PartMachines, Gc;
    var step := OpStep(pt, h, j);
    if step.Some? && step.value.CountUp? {
      OneMore(pt, h, j);
      OpPlace(pt, l, s, h, j);
      var c := Collected(n, Run(h[..j], pt.ttl), h[j], pt.q, pt.ttl);
      assert pt.count == Some(j);
      assert c.tracked == OfPool(Run(h[..j + 1], pt.ttl), pt.q) && pt.seen == |c.tracked|;
      ArriveKeepsAll(PartMachines(pt, s, h, j), pt.out.joins(j), c.tracked);
    }
  }

  // The tick up to its j-th operation.
  lemma {:induction false} OpsAreSteps(pt: Part, l: Limits, s: State, h: seq<Op>, j: nat) returns (steps: seq<Step>)
    requires PartOk(pt, l, s, h) && pt.from <= j <= |h|
    requires s.mode.Idle? && s.tracked == OfPool(Run(h[..pt.from], pt.ttl), pt.q)
    ensures Legal(l, s, steps) && NoOutsider(steps)
    ensures View(pt, s, h, j, PartMachines(pt, s, h, j), Exec(l, s, steps))
    ensures CountCovers(pt, l, s, h) ==> AlwaysAccounted(l, s, steps)
    decreases j
  {
    hide View, PartOk, CountCovers, PartMachines, Next, Enabled, Accounted, Run, OpStep;
    if j == pt.from {
      steps := ListingIsView(pt, l, s, h);
    } else {
      steps := OpsAreSteps(pt, l, s, h, j - 1);
      var more := OpSteps(pt, l, s, h, j - 1, Exec(l, s, steps));
      Chain(l, s, steps, more);
      steps := steps + more;
    }
  }

  lemma ListingIsView(pt: Part, l: Limits, s: State, h: seq<Op>) returns (steps: seq<Step>)
    requires PartOk(pt, l, s, h) && s.mode.Idle? && s.tracked == OfPool(Run(h[..pt.from], pt.ttl), pt.q)
    ensures Legal(l, s, steps) && NoOutsider(steps)
    ensures View(pt, s, h, pt.from, PartMachines(pt, s, h, pt.from), Exec(l, s, steps))
    ensures AlwaysAccounted(l, s, steps)
  {
    hide Run;
    steps := Prepend(l, s, ListUp, []);
  }

  // Operation j, after the machines that join before it.
  lemma OpSteps(pt: Part, l: Limits, s: State, h: seq<Op>, j: nat, n: State) returns (steps: seq<Step>)
    requires PartOk(pt, l, s, h) && pt.from <= j < |h| && View(pt, s, h, j, PartMachines(pt, s, h, j), n)
    ensures Legal(l, n, steps) && NoOutsider(steps)
    ensures View(pt, s, h, j + 1, PartMachines(pt, s, h, j + 1), Exec(l, n, steps))
    ensures CountCovers(pt, l, s, h) ==> AlwaysAccounted(l, n, steps)
  {
    hide Run, MachinesAfter;
    var m := Arrive(PartMachines(pt, s, h, j), pt.out.joins(j));
    var arriving := n.booting * pt.out.joins(j);
    var n1 := n.(joined := n.joined + arriving, booting := n.booting - arriving);
    assert View(pt, s, h, j, m, n1) && n1.tracked == OfPool(Run(h[..j], pt.ttl), pt.q);
    hide View, PartOk, CountCovers, PartMachines, StepOf, Next, Enabled, Accounted;
    steps := JoinAll(l, n, arriving);
    StepIsEnabled(pt, l, s, h, j, m, n1);
    ViewStep(pt, l, s, h, j, m, n1);
    MachinesOn(pt, s, h, j);
    if CountCovers(pt, l, s, h) {
      CountIsAccounted(pt, l, s, h, j, n1);
    }
    var more := OpIsSteps(l, n1, Run(h[..j], pt.ttl), h[j], pt.q, pt.ttl, OpStep(pt, h, j));
    Chain(l, n, steps, more);
    steps := steps + more;
  }

  lemma MachinesOn(pt: Part, s: State, h: seq<Op>, j: nat)
    requires pt.from <= j < |h|
    ensures PartMachines(pt, s, h, j + 1) ==
            MachinesAfter(Run(h[..j], pt.ttl), h[j], pt.q, pt.ttl, pt.out.lives(j),
                          Arrive(PartMachines(pt, s, h, j), pt.out.joins(j)))
  { }

  // Pool q's part of a tick that counted it at position k, if at all.
  function PartOf(pools: seq<Pool>, pods: seq<Pod>, nodes: seq<Node>, h0: seq<Op>, ttl: int,
                  observed: map<string, nat>, q: string, k: nat, out: Outside): Part
  {
    var pending := PodsFor(pods, pools, q);
    if q !in observed then Part(q, ttl, |h0|, out, None, 0, pending, 0)
    else Part(q, ttl, |h0|, out, Some(k), observed[q], pending, ScaleUp.Wanted(pools, pods, nodes, q, observed[q]))
  }

  // A scale-up tick of the code is a legal run of the fleet, whatever ended, expired, collided
  // or joined in it, and it accounts for every node if its count covers.
  lemma TickIsRun(pools: seq<Pool>, pods: seq<Pod>, nodes: seq<Node>, h0: seq<Op>, h: seq<Op>, ttl: int,
                  observed: map<string, nat>, q: string, k: nat, l: Limits, s: State, out: Outside)
    returns (steps: seq<Step>)
    requires ScaleUp.IsTick(pools, pods, nodes, h0, h, ttl, observed)
    requires q in observed ==> ScaleUp.CountedAt(h, |h0|, ttl, q, k, observed[q])
    requires PoolByName(pools, q).Some? && l.max == pools[PoolByName(pools, q).value].maxNodes
    requires s.mode.Idle? && s.tracked == OfPool(Run(h0, ttl), q) && |s.joined| == NodesIn(nodes, q)
    ensures Legal(l, s, steps) && NoOutsider(steps)
    ensures
      var m := MachinesAt(h, |h0|, |h|, q, ttl, out, Machines(s.joined, s.booting));
      Exec(l, s, steps) == State(m.joined, OfPool(Run(h, ttl), q), m.booting, Idle, s.faults)
    ensures CountCovers(PartOf(pools, pods, nodes, h0, ttl, observed, q, k, out), l, s, h) ==>
              AlwaysAccounted(l, s, steps)
  {
    var pt := PartOf(pools, pods, nodes, h0, ttl, observed, q, k, out);
    assert h[..|h0|] == h0 && h[..|h|] == h;
    PartIsOk(pools, pods, nodes, h0, h, ttl, observed, q, k, l, s, out);
    hide ScaleUp.IsTick, ScaleUp.CountedAt, PartOk, CountCovers, Run, MachinesAt;
    steps := OpsAreSteps(pt, l, s, h, |h|);
    var n := Exec(l, s, steps);
    var end := Prepend(l, n, EndUp, []);
    assert AlwaysAccounted(l, n, end);
    Chain(l, s, steps, end);
    steps := steps + end;
  }

  lemma PartIsOk(pools: seq<Pool>, pods: seq<Pod>, nodes: seq<Node>, h0: seq<Op>, h: seq<Op>, ttl: int,
                 observed: map<string, nat>, q: string, k: nat, l: Limits, s: State, out: Outside)
    requires ScaleUp.IsTick(pools, pods, nodes, h0, h, ttl, observed)
    requires q in observed ==> ScaleUp.CountedAt(h, |h0|, ttl, q, k, observed[q])
    requires PoolByName(pools, q).Some? && l.max == pools[PoolByName(pools, q).value].maxNodes
    requires |s.joined| == NodesIn(nodes, q)
    ensures PartOk(PartOf(pools, pods, nodes, h0, ttl, observed, q, k, out), l, s, h)
  {
    hide ScaleUp.CountedAt, ScaleUp.ToCreate;
    assert ScaleUp.PoolTurn(pools, pods, nodes, h0, h, ttl, observed, q);
    assert h[..|h0|] == h0;
  }

  // THE CEILING OF A TICK. A tick whose count covers leaves the pool's nodes, joined, tracked
  // or still coming, within max_nodes if they were, and does not add to them otherwise.
  lemma TickKeepsTheCeiling(pools: seq<Pool>, pods: seq<Pod>, nodes: seq<Node>, h0: seq<Op>, h: seq<Op>, ttl: int,
                            observed: map<string, nat>, q: string, k: nat, max: nat,
                            joined: set<string>, coming: set<string>, out: Outside)
    requires ScaleUp.IsTick(pools, pods, nodes, h0, h, ttl, observed) && q in observed
    requires PoolByName(pools, q).Some? && max == pools[PoolByName(pools, q).value].maxNodes
    requires |joined| == NodesIn(nodes, q) && ScaleUp.CountedAt(h, |h0|, ttl, q, k, observed[q])
    requires
      var m := MachinesAt(h, |h0|, k, q, ttl, out, Machines(joined, coming));
      |joined| + observed[q] >= Min(|m.joined + OfPool(Run(h[..k + 1], ttl), q) + m.booting|, max)
    ensures
      var m := MachinesAt(h, |h0|, |h|, q, ttl, out, Machines(joined, coming));
      |m.joined + OfPool(Run(h, ttl), q) + m.booting| <= Max(max, |joined + OfPool(Run(h0, ttl), q) + coming|)
  {
    assert k < |h|;
    hide ScaleUp.IsTick, ScaleUp.CountedAt, PartOf, CountCovers, Run, MachinesAt, OfPool, Legal, Exec, AlwaysAccounted;
    var l, s := Limits(0, max), State(joined, OfPool(Run(h0, ttl), q), coming, Idle, 0);
    var steps := TickIsRun(pools, pods, nodes, h0, h, ttl, observed, q, k, l, s, out);
    CoversAt(pools, pods, nodes, h0, h, ttl, observed, q, k, l, s, out);
    NeverAboveMax(l, s, steps);
  }

  lemma CoversAt(pools: seq<Pool>, pods: seq<Pod>, nodes: seq<Node>, h0: seq<Op>, h: seq<Op>, ttl: int,
                 observed: map<string, nat>, q: string, k: nat, l: Limits, s: State, out: Outside)
    requires q in observed && k < |h|
    requires
      var m := MachinesAt(h, |h0|, k, q, ttl, out, Machines(s.joined, s.booting));
      |s.joined| + observed[q] >= Min(|m.joined + OfPool(Run(h[..k + 1], ttl), q) + m.booting|, l.max)
    ensures CountCovers(PartOf(pools, pods, nodes, h0, ttl, observed, q, k, out), l, s, h)
  {
    hide ScaleUp.Wanted, PodsFor, MachinesAt, OfPool, Run;
  }
}
