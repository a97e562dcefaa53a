/** What a scale-down tick guarantees: the floor under any faults, and the order of effects. */
module ScaleDownTheorems {
  import opened Common
  import opened PoolMatch
  import opened World
  import opened Drain
  import opened ScaleDown

  ghost predicate TickOk(pools: seq<Pool>, nodes: seq<Node>, turns: seq<seq<Event>>, opts: Options) {
    |turns| == |nodes| && forall i: nat :: i < |turns| ==> TurnOk(pools, nodes, turns, opts, i)
  }

  // ---- Which nodes have a turn ----

  // The node object was deleted at the end of its turn.
  predicate EndsDeleted(events: seq<Event>, name: string, ok: bool) {
    events != [] && events[|events| - 1] == Delete(name, ok)
  }

  lemma DoneIsDelete(t: Turn, events: seq<Event>, ok: bool)
    requires events != [] && !StageOf(t, events).Illegal?
    ensures StageOf(t, events) == Done(ok) <==> EndsDeleted(events, t.node.name, ok)
  {
    assert StageOf(t, events) == Advance(t, StageOf(t, events[..|events| - 1]), events[|events| - 1]);
    hide StageOf, Evictable, IsIdle;
  }

  // The pool's nodes deleted in the first k turns, by their positions.
  function DeletedNodes(nodes: seq<Node>, turns: seq<seq<Event>>, pool: string, k: nat): set<int>
    requires k <= |nodes| == |turns|
  {
    set i | 0 <= i < k && "pool" in nodes[i].labels && nodes[i].labels["pool"] == pool
            && EndsDeleted(turns[i], nodes[i].name, true)
  }

  lemma {:induction false} DeletionsAreDeletes(pools: seq<Pool>, nodes: seq<Node>, turns: seq<seq<Event>>,
                                               opts: Options, pool: string, k: nat)
    requires TickOk(pools, nodes, turns, opts) && k <= |nodes|
    ensures DeletedIn(nodes, turns, opts, pool, k) == |DeletedNodes(nodes, turns, pool, k)|
  {
    if k == 0 {
      assert DeletedNodes(nodes, turns, pool, 0) == {};
    } else {
      DeletionsAreDeletes(pools, nodes, turns, opts, pool, k - 1);
      assert TurnOk(pools, nodes, turns, opts, k - 1);
      if turns[k - 1] != [] {
        DoneIsDelete(Turn(nodes[k - 1], opts), turns[k - 1], true);
      }
      hide StageOf, TurnOk;
      OneMoreTurn(nodes, turns, pool, k - 1);
    }
  }

  lemma OneMoreTurn(nodes: seq<Node>, turns: seq<seq<Event>>, pool: string, k: nat)
    requires k < |nodes| == |turns|
    ensures |DeletedNodes(nodes, turns, pool, k + 1)| ==
            |DeletedNodes(nodes, turns, pool, k)| +
            if NodeIn(nodes[k], pool) && EndsDeleted(turns[k], nodes[k].name, true) then 1 else 0
  {
    hide EndsDeleted;
    assert DeletedNodes(nodes, turns, pool, k + 1) ==
           DeletedNodes(nodes, turns, pool, k) +
           if NodeIn(nodes[k], pool) && EndsDeleted(turns[k], nodes[k].name, true) then {k} else {};
  }

  // WHICH NODES HAVE A TURN: a node labelled with a configured pool, exactly when the pool's
  // listed nodes, less those whose deletes succeeded before in the tick, exceed min_nodes.
  lemma TurnsAreTakenAboveFloor(pools: seq<Pool>, nodes: seq<Node>, turns: seq<seq<Event>>, opts: Options, i: nat)
    requires ValidPools(pools) && TickOk(pools, nodes, turns, opts) && i < |nodes|
    ensures turns[i] != [] <==>
            exists p: nat :: p < |pools| && "pool" in nodes[i].labels && nodes[i].labels["pool"] == pools[p].name
              && |LabelledNodes(nodes, pools[p].name)| - |DeletedNodes(nodes, turns, pools[p].name, i)|
                   > pools[p].minNodes
  {
    assert TurnOk(pools, nodes, turns, opts, i);
    forall p: nat | p < |pools|
      ensures NodesIn(nodes, pools[p].name) == |LabelledNodes(nodes, pools[p].name)|
      ensures DeletedIn(nodes, turns, opts, pools[p].name, i) == |DeletedNodes(nodes, turns, pools[p].name, i)|
    {
      SizeIsLabelledNodes(nodes, pools[p].name);
      DeletionsAreDeletes(pools, nodes, turns, opts, pools[p].name, i);
    }
    var r := PoolForNode(nodes[i], pools);
    hide NodesIn, DeletedIn, LabelledNodes, DeletedNodes, StageOf, PoolForNode;
    if p: nat :| p < |pools| && "pool" in nodes[i].labels && nodes[i].labels["pool"] == pools[p].name {
      assert r == Some(p);
    }
  }

  // ---- The floor ----

  // THE FLOOR UNDER ARBITRARY FAULTS. Whatever fails and wherever, one tick deletes at most
  // max(0, count - min_nodes) nodes of a configured pool.
  lemma {:induction false} FloorHolds(pools: seq<Pool>, nodes: seq<Node>, turns: seq<seq<Event>>, opts: Options,
                                      p: nat, k: nat)
    requires ValidPools(pools) && TickOk(pools, nodes, turns, opts) && p < |pools| && k <= |nodes|
    ensures DeletedIn(nodes, turns, opts, pools[p].name, k)
              <= Max(0, NodesIn(nodes, pools[p].name) - pools[p].minNodes)
  {
    if k > 0 {
      FloorHolds(pools, nodes, turns, opts, p, k - 1);
      assert TurnOk(pools, nodes, turns, opts, k - 1);
    }
  }

  // Successful terminations in a turn.
  function Terminations(events: seq<Event>): nat {
    if events == [] then 0
    else
      var e := events[|events| - 1];
      Terminations(events[..|events| - 1]) + if e.Terminate? && e.ok then 1 else 0
  }

  // A legal turn terminates at most one machine, and after doing so it is on its way to the
  // delete attempt.
  lemma {:induction false} TerminatesOnce(t: Turn, events: seq<Event>)
    requires !StageOf(t, events).Illegal?
    ensures
      var s := StageOf(t, events);
      Terminations(events) <= if s.Terminated? || s.Awaited? || s.Done? then 1 else 0
  {
    if events != [] {
      TerminatesOnce(t, events[..|events| - 1]);
    }
  }

  function TerminatedIn(nodes: seq<Node>, turns: seq<seq<Event>>, pool: string, k: nat): nat
    requires k <= |nodes| == |turns|
  {
    if k == 0 then 0
    else TerminatedIn(nodes, turns, pool, k - 1) + if NodeIn(nodes[k - 1], pool) then Terminations(turns[k - 1]) else 0
  }

  // Turns whose final delete of the node object failed.
  function FailedDeletesIn(nodes: seq<Node>, turns: seq<seq<Event>>, opts: Options, pool: string, k: nat): nat
    requires k <= |nodes| == |turns|
  {
    if k == 0 then 0
    else
      FailedDeletesIn(nodes, turns, opts, pool, k - 1) +
      if NodeIn(nodes[k - 1], pool) && turns[k - 1] != []
         && StageOf(Turn(nodes[k - 1], opts), turns[k - 1]) == Done(false)
      then 1 else 0
  }

  lemma {:induction false} TerminationsAreDeletes(pools: seq<Pool>, nodes: seq<Node>, turns: seq<seq<Event>>,
                                                  opts: Options, pool: string, k: nat)
    requires TickOk(pools, nodes, turns, opts) && k <= |nodes|
    ensures TerminatedIn(nodes, turns, pool, k)
              <= DeletedIn(nodes, turns, opts, pool, k) + FailedDeletesIn(nodes, turns, opts, pool, k)
  {
    if k > 0 {
      TerminationsAreDeletes(pools, nodes, turns, opts, pool, k - 1);
      assert TurnOk(pools, nodes, turns, opts, k - 1);
      if turns[k - 1] != [] {
        TerminatesOnce(Turn(nodes[k - 1], opts), turns[k - 1]);
      }
    }
  }

  // Machines terminated for a pool in one tick: the surplus over the floor, plus one for
  // each node object whose delete failed.
  lemma TerminationBound(pools: seq<Pool>, nodes: seq<Node>, turns: seq<seq<Event>>, opts: Options, p: nat)
    requires ValidPools(pools) && TickOk(pools, nodes, turns, opts) && p < |pools|
    ensures TerminatedIn(nodes, turns, pools[p].name, |nodes|)
              <= Max(0, NodesIn(nodes, pools[p].name) - pools[p].minNodes)
                 + FailedDeletesIn(nodes, turns, opts, pools[p].name, |nodes|)
  {
    TerminationsAreDeletes(pools, nodes, turns, opts, pools[p].name, |nodes|);
    FloorHolds(pools, nodes, turns, opts, p, |nodes|);
  }

  // ---- The order of effects ----

  lemma {:induction false} LegalPrefix(t: Turn, events: seq<Event>, k: nat)
    requires k < |events| && !StageOf(t, events).Illegal?
    ensures !StageOf(t, events[..k]).Illegal?
    ensures StageOf(t, events[..k + 1]) == Advance(t, StageOf(t, events[..k]), events[k])
    ensures !StageOf(t, events[..k + 1]).Illegal?
    decreases |events| - k
  {
    assert events[..k + 1][..k] == events[..k];
    if k + 1 == |events| {
      assert events[..k + 1] == events;
    } else {
      LegalPrefix(t, events, k + 1);
    }
  }

  predicate CordonAt(t: Turn, events: seq<Event>, i: nat) {
    i < |events| && events[i] == Cordoned(t.node.name, true)
  }

  // A listing of this node with nothing left to evict.
  predicate ClearAt(t: Turn, events: seq<Event>, i: nat) {
    i < |events| && events[i].Listed? && events[i].node == t.node.name
    && events[i].pods.Some? && Evictable(events[i].pods.value) == []
  }

  predicate FindAt(t: Turn, events: seq<Event>, i: nat, found: FindOutcome) {
    i < |events| && events[i] == Find(t.node.name, found)
  }

  predicate TerminateAt(events: seq<Event>, i: nat, id: string) {
    i < |events| && events[i] == Terminate(id, true)
  }

  // cordoned, then listed clear, then looked up, then terminated: each strictly later.
  ghost predicate IsCordoned(t: Turn, events: seq<Event>) {
    exists i: nat :: CordonAt(t, events, i)
  }

  ghost predicate IsClear(t: Turn, events: seq<Event>) {
    exists i: nat :: ClearAt(t, events, i) && IsCordoned(t, events[..i])
  }

  ghost predicate IsLookedUp(t: Turn, events: seq<Event>, found: FindOutcome) {
    exists i: nat :: FindAt(t, events, i, found) && IsClear(t, events[..i])
  }

  ghost predicate IsTerminated(t: Turn, events: seq<Event>) {
    exists i: nat, id: string :: TerminateAt(events, i, id) && IsLookedUp(t, events[..i], Found(id))
  }

  ghost predicate IsAwaited(t: Turn, events: seq<Event>) {
    exists i: nat :: WaitAt(events, i) && IsTerminated(t, events[..i])
  }

  predicate WaitAt(events: seq<Event>, i: nat) {
    i < |events| && events[i].WaitTerminate?
  }

  // What each stage remembers of the events before it.
  ghost predicate Remembered(t: Turn, events: seq<Event>) {
    match StageOf(t, events)
    case Cordon => IsCordoned(t, events)
    case Passing(_) => IsCordoned(t, events)
    case Listing(_) => IsCordoned(t, events)
    case Evicting(_, _, _) => IsCordoned(t, events)
    case Drained => IsClear(t, events)
    case NoServer => IsLookedUp(t, events, Absent)
    case HasServer(id) => IsLookedUp(t, events, Found(id))
    case Terminated => IsTerminated(t, events)
    case Awaited => IsAwaited(t, events)
    case _ => true
  }

  // One more event keeps every such fact, and adds its own.
  lemma MoreEvents(t: Turn, events: seq<Event>, e: Event)
    ensures
      var more := events + [e];
      && (IsCordoned(t, events) || e == Cordoned(t.node.name, true) ==> IsCordoned(t, more))
      && (IsClear(t, events) ==> IsClear(t, more))
      && (IsCordoned(t, events) && ClearAt(t, more, |events|) ==> IsClear(t, more))
      && (forall f :: IsLookedUp(t, events, f) ==> IsLookedUp(t, more, f))
      && (forall f :: IsClear(t, events) && e == Find(t.node.name, f) ==> IsLookedUp(t, more, f))
      && (IsTerminated(t, events) ==> IsTerminated(t, more))
      && (forall id :: IsLookedUp(t, events, Found(id)) && e == Terminate(id, true) ==> IsTerminated(t, more))
  {
    var more := events + [e];
    assert forall i: nat :: i <= |events| ==> more[..i] == events[..i];
    assert more[..|events|] == events;
    if IsCordoned(t, events) {
      var i: nat :| CordonAt(t, events, i);
      assert CordonAt(t, more, i);
    }
    if e == Cordoned(t.node.name, true) {
      assert CordonAt(t, more, |events|);
    }
    if IsClear(t, events) {
      var i: nat :| ClearAt(t, events, i) && IsCordoned(t, events[..i]);
      assert ClearAt(t, more, i);
    }
    forall f | IsLookedUp(t, events, f)
      ensures IsLookedUp(t, more, f)
    {
      var i: nat :| FindAt(t, events, i, f) && IsClear(t, events[..i]);
      assert FindAt(t, more, i, f);
    }
    forall f | IsClear(t, events) && e == Find(t.node.name, f)
      ensures IsLookedUp(t, more, f)
    {
      assert FindAt(t, more, |events|, f);
    }
    if IsTerminated(t, events) {
      var i: nat, id: string :| TerminateAt(events, i, id) && IsLookedUp(t, events[..i], Found(id));
      assert TerminateAt(more, i, id);
    }
    forall id | IsLookedUp(t, events, Found(id)) && e == Terminate(id, true)
      ensures IsTerminated(t, more)
    {
      assert TerminateAt(more, |events|, id);
    }
  }

  lemma OneMoreWait(t: Turn, events: seq<Event>, e: Event)
    ensures IsAwaited(t, events) ==> IsAwaited(t, events + [e])
    ensures IsTerminated(t, events) && e.WaitTerminate? ==> IsAwaited(t, events + [e])
  {
    hide IsTerminated;
    var more := events + [e];
    assert forall i: nat :: i <= |events| ==> more[..i] == events[..i];
    assert events[..|events|] == events;
    if IsAwaited(t, events) {
      var i: nat :| WaitAt(events, i) && IsTerminated(t, events[..i]);
      assert WaitAt(more, i);
    }
    if IsTerminated(t, events) && e.WaitTerminate? {
      assert WaitAt(more, |events|);
    }
  }

  lemma RememberStep(t: Turn, events: seq<Event>, e: Event)
    requires Remembered(t, events)
    ensures Remembered(t, events + [e])
  {
    hide StageOf, Evictable, IsIdle, IsCordoned, IsClear, IsLookedUp, IsTerminated, IsAwaited;
    StageAppend(t, events, e);
    MoreEvents(t, events, e);
    OneMoreWait(t, events, e);
  }

  lemma {:induction false} StagesRemember(t: Turn, events: seq<Event>)
    ensures Remembered(t, events)
  {
    if events == [] {
      assert StageOf(t, []) == FirstStage(t);
    } else {
      hide Remembered, StageOf;
      var n := |events| - 1;
      StagesRemember(t, events[..n]);
      RememberStep(t, events[..n], events[n]);
      assert events == events[..n] + [events[n]];
    }
  }

  predicate IsError(e: Event) {
    || e.Cut?
    || (e.Listed? && e.pods.None?)
    || (e.Cordoned? && !e.ok)
    || (e.Evict? && e.outcome.EvictFailed?)
    || (e.Find? && e.found.FindFailed?)
    || (e.Terminate? && !e.ok)
  }

  // After an error nothing else happens in that turn.
  lemma ErrorsEndTheTurn(t: Turn, events: seq<Event>, k: nat)
    requires !StageOf(t, events).Illegal? && k < |events| && IsError(events[k])
    ensures k == |events| - 1
  {
    hide StageOf, Evictable, IsIdle;
    LegalPrefix(t, events, k);
    if k + 1 < |events| {
      LegalPrefix(t, events, k + 1);
    }
  }

  // ---- Who is drained at all ----

  // A pod that keeps its node alive, in the pod's own fields.
  predicate KeepsAlive(p: Pod) {
    && "DaemonSet" !in p.ownerKinds && "kubernetes.io/config.mirror" !in p.annotations
    && p.phase != "Succeeded" && p.phase != "Failed"
  }

  // A listing of this node, and whether it shows a pod that keeps the node alive.
  predicate ShowsWork(t: Turn, e: Event, busy: bool) {
    && e.Listed? && e.node == t.node.name && e.pods.Some?
    && (busy <==> exists p :: p in e.pods.value && KeepsAlive(p))
  }

  // A clock reading at which the node's age has, or has not, reached the threshold.
  predicate ReadsAge(t: Turn, e: Event, aged: bool) {
    && t.node.created.Some? && e.ClockRead?
    && (aged <==> e.at - t.node.created.value >= t.opts.idleThreshold)
  }

  // The events of a turn before its cordon: the age check, for a node with a creation time,
  // then one listing.
  lemma {:induction false} FirstChecks(t: Turn, events: seq<Event>)
    ensures
      var s, n := StageOf(t, events), if t.node.created.Some? then 1 else 0;
      && (s.Fresh? ==> events == [] && t.node.created.Some?)
      && (s.Aged? || s.Idle? || s.Busy? ==> |events| >= n && (n == 1 ==> ReadsAge(t, events[0], true)))
      && (s.Young? <==> |events| == 1 && ReadsAge(t, events[0], false))
      && (s.Aged? ==> |events| == n)
      && (s.Idle? || s.Busy? ==> |events| == n + 1 && ShowsWork(t, events[n], s.Busy?))
  {
    if events != [] {
      FirstChecks(t, events[..|events| - 1]);
    }
  }

  // WHO IS DRAINED. A node is cordoned only right after a listing of it in which every pod is
  // a DaemonSet's, a mirror or finished; and if it has a creation time, only after a clock
  // reading before that at which it was at least idleThreshold old.
  lemma CordonsOnlyIdle(t: Turn, events: seq<Event>, k: nat)
    requires !StageOf(t, events).Illegal? && k < |events| && events[k].Cordoned?
    ensures
      var n := if t.node.created.Some? then 1 else 0;
      k == n + 1 && ShowsWork(t, events[n], false) && (n == 1 ==> ReadsAge(t, events[0], true))
  {
    LegalPrefix(t, events, k);
    FirstChecks(t, events[..k]);
    hide StageOf, Evictable, IsIdle;
  }

  // WHO IS NOT. A turn ends as too young exactly at a reading at which the node is not old
  // enough yet, and as busy exactly at a listing, after the age check, that shows some other
  // pod; a turn whose listing shows none goes on to the cordon.
  lemma TurnsAwayOnlyBusy(t: Turn, events: seq<Event>)
    requires Ended(StageOf(t, events)) && events != []
    ensures
      var s, n := StageOf(t, events), if t.node.created.Some? then 1 else 0;
      && (s.Young? <==> |events| == 1 && ReadsAge(t, events[0], false))
      && (s.Busy? <==> |events| == n + 1 && ShowsWork(t, events[n], true))
      && (|events| > n && ShowsWork(t, events[n], false) ==> |events| > n + 1 && events[n + 1].Cordoned?)
  {
    var n := if t.node.created.Some? then 1 else 0;
    FirstChecks(t, events);
    if |events| > n {
      LegalPrefix(t, events, n);
      FirstChecks(t, events[..n]);
      FirstChecks(t, events[..n + 1]);
      assert events[..n + 1][n] == events[n];
    }
    if |events| > n + 1 {
      LegalPrefix(t, events, n + 1);
    } else {
      assert events[..|events|] == events;
    }
    hide StageOf, Evictable, IsIdle;
  }

  // ---- Why a turn is given up ----

  // The drain's deadline: the clock read right after the cordon, and the timeout.
  predicate DeadlineAt(t: Turn, events: seq<Event>, i: nat, deadline: int) {
    && i + 1 < |events| && CordonAt(t, events, i)
    && events[i + 1].ClockRead? && deadline == events[i + 1].at + t.opts.drainTimeout
  }

  ghost predicate HasDeadline(t: Turn, events: seq<Event>, deadline: int) {
    exists i: nat :: DeadlineAt(t, events, i, deadline)
  }

  lemma {:induction false} DeadlineIsKept(t: Turn, events: seq<Event>)
    ensures
      var s := StageOf(t, events);
      && (s.Cordon? ==> events != [] && CordonAt(t, events, |events| - 1))
      && (s.Passing? || s.Listing? || s.Evicting? ==> HasDeadline(t, events, s.deadline))
  {
    if events != [] {
      var n := |events| - 1;
      var init := events[..n];
      DeadlineIsKept(t, init);
      var s, was := StageOf(t, events), StageOf(t, init);
      if was.Cordon? && s.Passing? {
        assert DeadlineAt(t, events, n - 1, s.deadline);
      } else if s.Passing? || s.Listing? || s.Evicting? {
        var i: nat :| DeadlineAt(t, init, i, was.deadline);
        assert DeadlineAt(t, events, i, s.deadline);
      }
    }
  }

  // A clock past the deadline that the reading after the cordon set.
  ghost predicate PastDeadline(t: Turn, events: seq<Event>) {
    exists i: nat :: CordonAt(t, events, i) && i + 2 < |events| && events[i + 1].ClockRead?
                     && events[|events| - 1].ClockRead?
                     && events[|events| - 1].at > events[i + 1].at + t.opts.drainTimeout
  }

  // An error or a back-off cut short gives the turn up, and nothing else does but a clock past
  // the drain's deadline.
  lemma StopsForAReason(t: Turn, events: seq<Event>)
    requires events != [] && !StageOf(t, events).Illegal?
    ensures IsError(events[|events| - 1]) ==> StageOf(t, events).Stopped?
    ensures StageOf(t, events).Stopped? ==> IsError(events[|events| - 1]) || PastDeadline(t, events)
  {
    var n := |events| - 1;
    var s := StageOf(t, events[..n]);
    DeadlineIsKept(t, events[..n]);
    assert StageOf(t, events) == Advance(t, s, events[n]);
    hide StageOf, Evictable, IsIdle;
    if s.Passing? {
      var i: nat :| DeadlineAt(t, events[..n], i, s.deadline);
      assert CordonAt(t, events, i);
    }
  }

  // THE ORDER OF EFFECTS, in every turn of every tick. A machine is terminated only if it
  // was found under this node's name, after a listing with nothing to evict, after the
  // cordon. A node object is deleted only if, after those, the machine was found absent, or
  // was terminated and its termination waited for; it is this node's object; and nothing has
  // failed before in the turn.
  lemma EffectsInOrder(t: Turn, events: seq<Event>, k: nat)
    requires !StageOf(t, events).Illegal? && k < |events|
    ensures events[k].Terminate? ==> IsLookedUp(t, events[..k], Found(events[k].id))
    ensures events[k].Delete? ==> events[k].node == t.node.name
                                  && (IsLookedUp(t, events[..k], Absent) || IsAwaited(t, events[..k]))
    ensures events[k].Delete? ==> forall j :: 0 <= j < k ==> !IsError(events[j])
  {
    LegalPrefix(t, events, k);
    StagesRemember(t, events[..k]);
    hide StageOf, Evictable, IsIdle, IsCordoned, IsClear, IsLookedUp, IsTerminated, IsAwaited;
    if events[k].Delete? {
      forall j | 0 <= j < k
        ensures !IsError(events[j])
      {
        if IsError(events[j]) {
          ErrorsEndTheTurn(t, events, j);
        }
      }
    }
  }

  // ---- What is evicted ----

  // The listing that put a pod up for eviction.
  predicate ListedFor(t: Turn, e: Event, p: Pod) {
    e.Listed? && e.node == t.node.name && e.pods.Some? && p in Evictable(e.pods.value)
  }

  predicate ListsAll(t: Turn, e: Event, pods: seq<Pod>) {
    forall p :: p in pods ==> ListedFor(t, e, p)
  }

  lemma {:induction false} EvictingWasListed(t: Turn, events: seq<Event>)
    ensures StageOf(t, events).Evicting? ==>
              exists j :: 0 <= j < |events| && ListsAll(t, events[j], StageOf(t, events).rest)
  {
    if events != [] {
      var n := |events| - 1;
      var init := events[..n];
      EvictingWasListed(t, init);
      if StageOf(t, events).Evicting? && StageOf(t, init).Evicting? {
        var j :| 0 <= j < n && ListsAll(t, init[j], StageOf(t, init).rest);
        assert ListsAll(t, events[j], StageOf(t, events).rest);
      } else if StageOf(t, events).Evicting? {
        assert ListsAll(t, events[n], StageOf(t, events).rest);
      }
    }
  }

  // Only pods that pass the filter of an earlier listing of this node are evicted, and if
  // every listing of the turn passes the idle check, only finished pods are.
  lemma EvictsOnlyListed(t: Turn, events: seq<Event>, k: nat)
    requires !StageOf(t, events).Illegal? && k < |events| && events[k].Evict?
    ensures exists j :: 0 <= j < k && ListedFor(t, events[j], events[k].pod)
    ensures ShouldEvict(events[k].pod)
    ensures (forall j :: 0 <= j < k && events[j].Listed? && events[j].pods.Some? ==> IsIdle(events[j].pods.value))
              ==> Finished(events[k].pod)
  {
    LegalPrefix(t, events, k);
    EvictingWasListed(t, events[..k]);
    var j :| 0 <= j < k && ListsAll(t, events[..k][j], StageOf(t, events[..k]).rest);
    assert ListedFor(t, events[j], events[k].pod);
    EvictableMembers(events[j].pods.value, events[k].pod);
    if IsIdle(events[j].pods.value) {
      IdleLeavesFinished(events[j].pods.value);
    }
  }
}
