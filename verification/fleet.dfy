/** One pool over a whole life of the controller: scale-up ticks, names reserved, creations
    ending, entries expiring, nodes joining, scale-down ticks with deletes that succeed, fail,
    or fail after taking effect. */
module Fleet {
  import opened Common
  import ScaleUp

  // Where the single control loop is. Launching: a tick has counted and may still start
  // `left` creations. Draining: a tick has listed, and `counter` is its live node count.
  datatype Mode =
    | Idle
    | Listed(listing: set<string>)
    | Launching(left: nat)
    | Draining(todo: set<string>, counter: int)

  // joined: nodes in the cluster. tracked: tracker entries not collected yet; expired ones are
  // collected before every count. booting: machines that were asked for, are not given up,
  // and have not joined. faults: nodes that left the cluster without the controller counting
  // them.
  datatype State = State(joined: set<string>, tracked: set<string>, booting: set<string>,
                         mode: Mode, faults: nat)

  datatype Limits = Limits(min: nat, max: nat)

  datatype Step =
    | ListUp
    | CountUp(pending: nat)
    | Launch(name: string)
    | Collide
    | EndUp
    | CreationEnds(name: string, machineLives: bool)
    | Expires(name: string)
    | Join(name: string)
    | GiveUp(name: string)
    | OutsideJoin(name: string)
    | OutsideDelete(name: string)
    | ListDown
    | DeleteOk(name: string)
    | DeleteErr(name: string, applied: bool)
    | EndDown

  function Nodes(s: State): set<string> {
    s.joined + s.tracked + s.booting
  }

  predicate Enabled(l: Limits, s: State, step: Step) {
    match step
    case ListUp => s.mode.Idle?
    case CountUp(_) => s.mode.Listed?
    case Launch(_) => s.mode.Launching? && s.mode.left > 0
    case Collide => s.mode.Launching? && s.mode.left > 0
    case EndUp => s.mode.Launching? || s.mode.Listed?
    case CreationEnds(name, _) => name in s.tracked
    case Expires(name) => name in s.tracked
    case Join(name) => name in s.booting
    case GiveUp(name) => name in s.booting && name !in s.tracked
    case OutsideJoin(_) => true
    case OutsideDelete(name) => name in s.joined
    case ListDown => s.mode.Idle?
    case DeleteOk(name) => s.mode.Draining? && name in s.mode.todo && name in s.joined && s.mode.counter > l.min
    case DeleteErr(name, applied) =>
      s.mode.Draining? && name in s.mode.todo && (applied ==> name in s.joined) && s.mode.counter > l.min
    case EndDown => s.mode.Draining?
  }

  function Next(l: Limits, s: State, step: Step): State
    requires Enabled(l, s, step)
  {
    match step
    case ListUp => s.(mode := Listed(s.joined))
    case CountUp(pending) =>
      s.(mode := Launching(ScaleUp.ToCreate(pending, |s.mode.listing|, |s.tracked|, l.max)))
    case Launch(name) =>
      s.(tracked := s.tracked + {name}, booting := s.booting + {name}, mode := Launching(s.mode.left - 1))
    case Collide => s.(mode := Launching(s.mode.left - 1))
    case EndUp => s.(mode := Idle)
    // createNode drops its entry on every return; the machine may live on and join later.
    case CreationEnds(name, machineLives) =>
      s.(tracked := s.tracked - {name}, booting := if machineLives then s.booting else s.booting - {name})
    case Expires(name) => s.(tracked := s.tracked - {name})
    case Join(name) => s.(booting := s.booting - {name}, joined := s.joined + {name})
    // A machine that nothing tracks any more can still die before it joins.
    case GiveUp(name) => s.(booting := s.booting - {name})
    case OutsideJoin(name) => s.(joined := s.joined + {name})
    case OutsideDelete(name) => s.(joined := s.joined - {name}, faults := s.faults + 1)
    case ListDown => s.(mode := Draining(s.joined, |s.joined|))
    case DeleteOk(name) =>
      s.(joined := s.joined - {name}, mode := Draining(s.mode.todo - {name}, s.mode.counter - 1))
    // A failed delete never lowers the counter, even when it took effect.
    case DeleteErr(name, applied) =>
      s.(joined := if applied then s.joined - {name} else s.joined,
         faults := if applied then s.faults + 1 else s.faults,
         mode := Draining(s.mode.todo - {name}, s.mode.counter))
    case EndDown => s.(mode := Idle)
  }

  ghost predicate Legal(l: Limits, s: State, steps: seq<Step>)
    decreases |steps|
  {
    steps == [] || (Enabled(l, s, steps[0]) && Legal(l, Next(l, s, steps[0]), steps[1..]))
  }

  ghost function Exec(l: Limits, s: State, steps: seq<Step>): State
    requires Legal(l, s, steps)
    decreases |steps|
  {
    if steps == [] then s else Exec(l, Next(l, s, steps[0]), steps[1..])
  }

  // ---- The ceiling ----

  // What a tick counts covers the nodes that are there or still coming, as far as max_nodes.
  predicate Covers(l: Limits, s: State)
    requires s.mode.Listed?
  {
    |s.mode.listing| + |s.tracked| >= Min(|Nodes(s)|, l.max)
  }

  predicate Accounted(l: Limits, s: State, step: Step) {
    step.CountUp? && s.mode.Listed? ==> Covers(l, s)
  }

  ghost predicate AlwaysAccounted(l: Limits, s: State, steps: seq<Step>)
    requires Legal(l, s, steps)
    decreases |steps|
  {
    steps == [] || (Accounted(l, s, steps[0]) && AlwaysAccounted(l, Next(l, s, steps[0]), steps[1..]))
  }

  predicate NoOutsider(steps: seq<Step>) {
    forall i :: 0 <= i < |steps| ==> !steps[i].OutsideJoin?
  }

  predicate CeilingOk(l: Limits, s: State, bound: int) {
    |Nodes(s)| <= bound && (s.mode.Launching? && s.mode.left > 0 ==> |Nodes(s)| + s.mode.left <= l.max)
  }

  lemma SubsetSize<T>(a: set<T>, b: set<T>)
    requires a <= b
    ensures |a| <= |b|
  {
    assert b == a + (b - a);
  }

  // One run after another is a run.
  lemma {:induction false} Chain(l: Limits, s: State, a: seq<Step>, b: seq<Step>)
    requires Legal(l, s, a) && Legal(l, Exec(l, s, a), b)
    ensures Legal(l, s, a + b) && Exec(l, s, a + b) == Exec(l, Exec(l, s, a), b)
    ensures AlwaysAccounted(l, s, a) && AlwaysAccounted(l, Exec(l, s, a), b) ==> AlwaysAccounted(l, s, a + b)
    decreases |a|
  {
    if a == [] {
      assert a + b == b;
    } else {
      assert (a + b)[1..] == a[1..] + b;
      Chain(l, Next(l, s, a[0]), a[1..], b);
    }
  }

  lemma CeilingStep(l: Limits, s: State, step: Step, bound: int)
    requires Enabled(l, s, step) && CeilingOk(l, s, bound) && l.max <= bound
    requires Accounted(l, s, step) && !step.OutsideJoin?
    ensures CeilingOk(l, Next(l, s, step), bound)
  {
    var n := Next(l, s, step);
    if step.Launch? {
      assert Nodes(n) == Nodes(s) + {step.name};
    } else {
      assert Nodes(n) <= Nodes(s);
      SubsetSize(Nodes(n), Nodes(s));
    }
  }

  lemma {:induction false} CeilingRun(l: Limits, s: State, steps: seq<Step>, bound: int)
    requires Legal(l, s, steps) && AlwaysAccounted(l, s, steps) && NoOutsider(steps)
    requires CeilingOk(l, s, bound) && l.max <= bound
    ensures CeilingOk(l, Exec(l, s, steps), bound)
    decreases |steps|
  {
    if steps != [] {
      CeilingStep(l, s, steps[0], bound);
      CeilingRun(l, Next(l, s, steps[0]), steps[1..], bound);
    }
  }

  // THE WHOLE-RUN CEILING. Over every run of ticks, joins, expiries and creation endings in
  // which each count covers the nodes there are, the distinct nodes joined, tracked or
  // booting never exceed max_nodes once they are within it, and never grow while above it.
  lemma NeverAboveMax(l: Limits, s: State, steps: seq<Step>)
    requires s.mode.Idle? && Legal(l, s, steps) && AlwaysAccounted(l, s, steps) && NoOutsider(steps)
    ensures |Nodes(Exec(l, s, steps))| <= Max(l.max, |Nodes(s)|)
  {
    CeilingRun(l, s, steps, Max(l.max, |Nodes(s)|));
  }

  // In particular when every node is in the listing of the tick or still tracked.
  lemma ListedOrTrackedCovers(l: Limits, s: State)
    requires s.mode.Listed? && Nodes(s) <= s.mode.listing + s.tracked
    ensures Covers(l, s)
  {
    SubsetSize(Nodes(s), s.mode.listing + s.tracked);
    assert s.mode.listing + s.tracked == s.mode.listing + (s.tracked - s.mode.listing);
    SubsetSize(s.tracked - s.mode.listing, s.tracked);
  }

  // ---- Where the ceiling ends ----

  // A continuation from a listing: the tick counts now, under any demand, and afterwards
  // anything happens in which the later counts cover.
  ghost predicate GoesOn(l: Limits, s: State, steps: seq<Step>) {
    && steps != [] && steps[0].CountUp? && Legal(l, s, steps) && NoOutsider(steps)
    && AlwaysAccounted(l, Next(l, s, steps[0]), steps[1..])
  }

  // Some name that is not among the given ones.
  ghost function Longest(avoid: set<string>): (n: nat)
    ensures forall x :: x in avoid ==> |x| < n
  {
    if avoid == {} then 0
    else
      var x :| x in avoid;
      Max(|x| + 1, Longest(avoid - {x}))
  }

  function Zeros(n: nat): (name: string)
    ensures |name| == n
  {
    seq(n, i => '0')
  }

  lemma FreshName(avoid: set<string>) returns (name: string)
    ensures name !in avoid
  {
    name := Zeros(Longest(avoid));
  }

  // The launches a tick still has left, each under a new name.
  lemma {:induction false} LaunchAll(l: Limits, s: State) returns (steps: seq<Step>)
    requires s.mode.Launching?
    ensures Legal(l, s, steps) && NoOutsider(steps) && AlwaysAccounted(l, s, steps)
    ensures |Nodes(Exec(l, s, steps))| == |Nodes(s)| + s.mode.left
    decreases if s.mode.Launching? then s.mode.left else 0
  {
    steps := [];
    if s.mode.left > 0 {
      var name := FreshName(Nodes(s));
      var n := Next(l, s, Launch(name));
      assert Nodes(n) == Nodes(s) + {name};
      var rest := LaunchAll(l, n);
      steps := Prepend(l, s, Launch(name), rest);
    }
  }

  // A count that does not cover overruns under enough demand.
  lemma UncoveredOverruns(l: Limits, s: State) returns (steps: seq<Step>)
    requires s.mode.Listed? && !Covers(l, s)
    ensures GoesOn(l, s, steps) && |Nodes(Exec(l, s, steps))| > Max(l.max, |Nodes(s)|)
  {
    var n := Next(l, s, CountUp(l.max));
    assert Nodes(n) == Nodes(s);
    var rest := LaunchAll(l, n);
    steps := Prepend(l, s, CountUp(l.max), rest);
  }

  // THE EXACT CONDITION OF ONE COUNT. From a state in which a tick has listed the nodes, the
  // pool stays within its ceiling under every demand and in every continuation in which the
  // later counts cover, if and only if this count covers.
  lemma CountIsExact(l: Limits, s: State)
    requires s.mode.Listed?
    ensures Covers(l, s) <==>
            forall steps :: GoesOn(l, s, steps) ==> |Nodes(Exec(l, s, steps))| <= Max(l.max, |Nodes(s)|)
  {
    if Covers(l, s) {
      forall steps | GoesOn(l, s, steps)
        ensures |Nodes(Exec(l, s, steps))| <= Max(l.max, |Nodes(s)|)
      {
        CeilingRun(l, s, steps, Max(l.max, |Nodes(s)|));
      }
    } else {
      var steps := UncoveredOverruns(l, s);
    }
  }

  // Wherever the run counts, meeting another demand and going on otherwise would still
  // leave the pool within max_nodes.
  ghost predicate RobustlyBelow(l: Limits, s: State, steps: seq<Step>)
    requires Legal(l, s, steps)
    decreases |steps|
  {
    steps == [] ||
    (&& (steps[0].CountUp? ==> forall more :: GoesOn(l, s, more) ==> |Nodes(Exec(l, s, more))| <= l.max)
     && RobustlyBelow(l, Next(l, s, steps[0]), steps[1..]))
  }

  // THE EXACT CONDITION OF A RUN. A run without outside nodes that starts within max_nodes
  // stays within it robustly if and only if each of its counts covers.
  lemma {:induction false} CeilingIsExact(l: Limits, s: State, steps: seq<Step>)
    requires Legal(l, s, steps) && NoOutsider(steps) && CeilingOk(l, s, l.max)
    ensures AlwaysAccounted(l, s, steps) <==> RobustlyBelow(l, s, steps)
    decreases |steps|
  {
    if steps != [] {
      if steps[0].CountUp? {
        CountIsExact(l, s);
      }
      if Accounted(l, s, steps[0]) {
        CeilingStep(l, s, steps[0], l.max);
        CeilingIsExact(l, Next(l, s, steps[0]), steps[1..]);
      }
    }
  }

  // A run over the ceiling: the creation ends, and with it its entry, before the node is
  // listed; the next tick counts nothing and starts a second machine for a pool of one.
  lemma DroppedEntryOverruns(l: Limits, s: State, a: string, b: string) returns (steps: seq<Step>)
    requires l.max == 1 && s == State({}, {}, {}, Idle, 0) && a != b
    ensures Legal(l, s, steps) && |Nodes(Exec(l, s, steps))| == 2
  {
    var s1 := Next(l, s, ListUp);
    var s2 := Next(l, s1, CountUp(1));
    var s3 := Next(l, s2, Launch(a));
    var s4 := Next(l, s3, EndUp);
    var s5 := Next(l, s4, CreationEnds(a, true));
    var s6 := Next(l, s5, ListUp);
    var s7 := Next(l, s6, CountUp(1));
    var s8 := Next(l, s7, Launch(b));
    assert s3.tracked == {a} && s5.tracked == {} && s6.mode == Listed({});
    assert Nodes(s8) == {a, b};
    steps := [];
    steps := Prepend(l, s7, Launch(b), steps);
    steps := Prepend(l, s6, CountUp(1), steps);
    steps := Prepend(l, s5, ListUp, steps);
    steps := Prepend(l, s4, CreationEnds(a, true), steps);
    steps := Prepend(l, s3, EndUp, steps);
    steps := Prepend(l, s2, Launch(a), steps);
    steps := Prepend(l, s1, CountUp(1), steps);
    steps := Prepend(l, s, ListUp, steps);
  }

  lemma Prepend(l: Limits, s: State, step: Step, rest: seq<Step>) returns (steps: seq<Step>)
    requires Enabled(l, s, step) && Legal(l, Next(l, s, step), rest)
    ensures steps == [step] + rest && Legal(l, s, steps) && Exec(l, s, steps) == Exec(l, Next(l, s, step), rest)
  {
    steps := [step] + rest;
    assert steps[1..] == rest;
  }

  // ---- The floor ----

  predicate FloorOk(l: Limits, s: State) {
    && |s.joined| + s.faults >= l.min
    && (s.mode.Draining? ==> |s.joined| + s.faults >= s.mode.counter)
  }

  lemma FloorStep(l: Limits, s: State, step: Step)
    requires Enabled(l, s, step) && FloorOk(l, s)
    ensures FloorOk(l, Next(l, s, step))
  {
    var n := Next(l, s, step);
    if step.Join? || step.OutsideJoin? {
      SubsetSize(s.joined, n.joined);
    }
  }

  lemma {:induction false} FloorRun(l: Limits, s: State, steps: seq<Step>)
    requires Legal(l, s, steps) && FloorOk(l, s)
    ensures FloorOk(l, Exec(l, s, steps))
    decreases |steps|
  {
    if steps != [] {
      FloorStep(l, s, steps[0]);
      FloorRun(l, Next(l, s, steps[0]), steps[1..]);
    }
  }

  // THE WHOLE-RUN FLOOR. A pool that starts at or above min_nodes falls below it by at most
  // the number of nodes that left uncounted: deleted by others, or by a delete that reported
  // an error and took effect all the same. With none of those it never falls below.
  lemma NeverBelowMin(l: Limits, s: State, steps: seq<Step>)
    requires s.mode.Idle? && |s.joined| >= l.min && Legal(l, s, steps)
    ensures |Exec(l, s, steps).joined| + (Exec(l, s, steps).faults - s.faults) >= l.min
  {
    FaultsShift(l, s, s.(faults := 0), steps);
    FloorRun(l, s.(faults := 0), steps);
  }

  // The fault counter is only a history: starting it elsewhere changes nothing else.
  lemma {:induction false} FaultsShift(l: Limits, s: State, t: State, steps: seq<Step>)
    requires Legal(l, s, steps) && t == s.(faults := t.faults)
    ensures Legal(l, t, steps)
    ensures Exec(l, t, steps).joined == Exec(l, s, steps).joined
    ensures Exec(l, t, steps).faults - t.faults == Exec(l, s, steps).faults - s.faults
    decreases |steps|
  {
    if steps != [] {
      FaultsShift(l, Next(l, s, steps[0]), Next(l, t, steps[0]), steps[1..]);
    }
  }
}
