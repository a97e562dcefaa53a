/** One scale-down tick: walk a node snapshot with a live counter per pool, and for each
    idle node above the floor cordon, drain, terminate, delete. */
module ScaleDown {
  import opened Common
  import opened PoolMatch
  import opened World
  import opened Drain

  // How a turn can end: never between a successful terminate and the delete attempt.
  predicate Ended(s: Stage) {
    s.Young? || s.Busy? || s.Stopped? || s.Done?
  }

  method IsNodeOldEnough(w: World, t: Turn, ghost from: nat) returns (oldEnough: bool)
    requires from == |w.trace|
    modifies w
    ensures old(w.trace) <= w.trace && w.now >= old(w.now)
    ensures StageOf(t, w.trace[from..]) == if oldEnough then Aged else Young
  {
    if t.node.created.None? {
      return true;
    }
    var now := w.Now();
    assert w.trace[from..] == [ClockRead(now)];
    StageAppend(t, [], ClockRead(now));
    assert [] + [ClockRead(now)] == [ClockRead(now)];
    oldEnough := now - t.node.created.value >= t.opts.idleThreshold;
  }

  // None when the listing failed.
  method IsNodeIdle(w: World, t: Turn, ghost from: nat) returns (idle: Option<bool>)
    requires from <= |w.trace| && StageOf(t, w.trace[from..]) == Aged
    modifies w
    ensures old(w.trace) <= w.trace && w.now >= old(w.now)
    ensures StageOf(t, w.trace[from..]) == if idle.None? then Stopped else if idle.value then Idle else Busy
  {
    hide StageOf;
    ghost var before := w.trace[from..];
    var pods := w.ListPodsOnNode(t.node.name);
    assert w.trace[from..] == before + [Listed(t.node.name, pods)];
    StageAppend(t, before, Listed(t.node.name, pods));
    if pods.None? {
      return None;
    }
    for k := 0 to |pods.value|
      invariant IsIdle(pods.value[..k])
    {
      var p := pods.value[k];
      if IsDaemonSetPod(p) || IsMirrorPod(p) {
        continue;
      }
      if p.phase == "Succeeded" || p.phase == "Failed" {
        continue;
      }
      assert p in pods.value;
      return Some(false);
    }
    assert pods.value[..|pods.value|] == pods.value;
    idle := Some(true);
  }

  // True when the node object was deleted. An absent machine counts as terminated; a failed
  // wait for the termination does not stop the delete.
  method TerminateAndDelete(w: World, t: Turn, ghost from: nat) returns (ok: bool)
    requires from <= |w.trace| && StageOf(t, w.trace[from..]) == Drained
    modifies w
    ensures old(w.trace) <= w.trace && w.now >= old(w.now)
    ensures StageOf(t, w.trace[from..]) == Done(ok) || (!ok && StageOf(t, w.trace[from..]) == Stopped)
  {
    hide Advance, StageOf;
    var found := Locate(w, t, from);
    match found {
      case Absent =>
      case FindFailed => return false;
      case Found(id) =>
        ok := TerminateAndAwait(w, t, id, from);
        if !ok {
          return;
        }
    }
    ok := DeleteObject(w, t, from);
  }

  method Locate(w: World, t: Turn, ghost from: nat) returns (found: FindOutcome)
    requires from <= |w.trace| && StageOf(t, w.trace[from..]) == Drained
    modifies w
    ensures old(w.trace) <= w.trace && w.now >= old(w.now)
    ensures StageOf(t, w.trace[from..]) ==
            match found case Found(id) => HasServer(id) case Absent => NoServer case FindFailed => Stopped
  {
    hide StageOf;
    ghost var before := w.trace[from..];
    found := w.FindServer(t.node.name);
    assert w.trace[from..] == before + [Find(t.node.name, found)];
    StageAppend(t, before, Find(t.node.name, found));
  }

  method DeleteObject(w: World, t: Turn, ghost from: nat) returns (ok: bool)
    requires from <= |w.trace|
    requires StageOf(t, w.trace[from..]) == NoServer || StageOf(t, w.trace[from..]) == Awaited
    modifies w
    ensures old(w.trace) <= w.trace && w.now >= old(w.now) && StageOf(t, w.trace[from..]) == Done(ok)
  {
    hide StageOf;
    ghost var before := w.trace[from..];
    ok := w.DeleteNode(t.node.name);
    assert w.trace[from..] == before + [Delete(t.node.name, ok)];
    StageAppend(t, before, Delete(t.node.name, ok));
  }

  method TerminateAndAwait(w: World, t: Turn, id: string, ghost from: nat) returns (ok: bool)
    requires from <= |w.trace| && StageOf(t, w.trace[from..]) == HasServer(id)
    modifies w
    ensures old(w.trace) <= w.trace && w.now >= old(w.now)
    ensures StageOf(t, w.trace[from..]) == if ok then Awaited else Stopped
  {
    hide StageOf;
    ghost var e0 := w.trace[from..];
    ok := w.TerminateServer(id);
    assert w.trace[from..] == e0 + [Terminate(id, ok)];
    StageAppend(t, e0, Terminate(id, ok));
    if ok {
      ghost var e1 := w.trace[from..];
      var waited := w.AwaitTermination();
      assert w.trace[from..] == e1 + [WaitTerminate(waited)];
      StageAppend(t, e1, WaitTerminate(waited));
    }
  }

  // One node's whole turn, once its pool is above the floor.
  method TakeTurn(w: World, t: Turn, ghost from: nat) returns (deleted: bool)
    requires from == |w.trace|
    modifies w
    ensures old(w.trace) < w.trace && w.now >= old(w.now)
    ensures Ended(StageOf(t, w.trace[from..])) && (deleted <==> StageOf(t, w.trace[from..]) == Done(true))
  {
    hide Advance, StageOf;
    var oldEnough := IsNodeOldEnough(w, t, from);
    if !oldEnough {
      NothingYet(t, w.trace[from..]);
      return false;
    }
    var idle := IsNodeIdle(w, t, from);
    NothingYet(t, w.trace[from..]);
    if idle.None? || !idle.value {
      return false;
    }
    var drained, short, long := DrainNode(w, t, from);
    if !drained {
      return false;
    }
    deleted := TerminateAndDelete(w, t, from);
  }

  lemma NothingYet(t: Turn, events: seq<Event>)
    requires StageOf(t, events) != FirstStage(t)
    ensures events != []
    ensures FirstStage(t) != Young && FirstStage(t) != Idle && FirstStage(t) != Busy && FirstStage(t) != Stopped
  { }

  function Flatten(turns: seq<seq<Event>>): seq<Event> {
    if turns == [] then [] else Flatten(turns[..|turns| - 1]) + turns[|turns| - 1]
  }

  // Node objects of a pool deleted in the first k turns.
  function DeletedIn(nodes: seq<Node>, turns: seq<seq<Event>>, opts: Options, pool: string, k: nat): nat
    requires k <= |nodes| == |turns|
  {
    if k == 0 then 0
    else
      DeletedIn(nodes, turns, opts, pool, k - 1) +
      if NodeIn(nodes[k - 1], pool) && turns[k - 1] != []
         && StageOf(Turn(nodes[k - 1], opts), turns[k - 1]) == Done(true)
      then 1 else 0
  }

  // Turn i is taken exactly when the node's pool, less what was deleted before, is above its
  // floor; and a turn taken runs to one of the legal ends.
  predicate TurnOk(pools: seq<Pool>, nodes: seq<Node>, turns: seq<seq<Event>>, opts: Options, i: nat)
    requires i < |nodes| == |turns|
  {
    var p := PoolForNode(nodes[i], pools);
    && (turns[i] != [] <==>
          p.Some? && NodesIn(nodes, pools[p.value].name) - DeletedIn(nodes, turns, opts, pools[p.value].name, i)
                       > pools[p.value].minNodes)
    && (turns[i] != [] ==> Ended(StageOf(Turn(nodes[i], opts), turns[i])))
  }

  lemma {:induction false} DeletedInPrefix(nodes: seq<Node>, a: seq<seq<Event>>, b: seq<seq<Event>>, opts: Options,
                                           pool: string, k: nat)
    requires |a| == |b| == |nodes| && k <= |nodes| && forall i :: 0 <= i < k ==> a[i] == b[i]
    ensures DeletedIn(nodes, a, opts, pool, k) == DeletedIn(nodes, b, opts, pool, k)
  {
    if k > 0 {
      DeletedInPrefix(nodes, a, b, opts, pool, k - 1);
    }
  }

  // One tick. `turns` lists what was done for each node of the snapshot.
  method ScaleDown(w: World, pools: seq<Pool>, nodesAnswer: Option<seq<Node>>, opts: Options)
    returns (ok: bool, ghost turns: seq<seq<Event>>)
    modifies w
    ensures ok <==> nodesAnswer.Some?
    ensures !ok ==> w.trace == old(w.trace)
    ensures ok ==> |turns| == |nodesAnswer.value| && w.trace == old(w.trace) + Flatten(turns)
    ensures ok ==> forall i: nat :: i < |turns| ==> TurnOk(pools, nodesAnswer.value, turns, opts, i)
  {
    hide Advance, StageOf;
    turns := [];
    if nodesAnswer.None? {
      return false, turns;
    }
    var nodes := nodesAnswer.value;
    var counts := CountNodesByPool(nodes);
    var byPool: map<string, int> := map name | name in counts :: counts[name];
    turns := seq(|nodes|, i => []);
    assert CountersOk(nodes, turns, opts, byPool, 0);
    hide CountersOk, Visited, TurnOk;
    for i := 0 to |nodes|
      invariant |turns| == |nodes| && forall j :: i <= j < |nodes| ==> turns[j] == []
      invariant w.trace == old(w.trace) + Flatten(turns[..i])
      invariant CountersOk(nodes, turns, opts, byPool, i)
      invariant forall j: nat :: j < i ==> TurnOk(pools, nodes, turns, opts, j)
    {
      ghost var before, counters := turns, byPool;
      ghost var from := |w.trace|;
      byPool := VisitNode(w, pools, nodes[i], byPool, opts);
      turns := turns[i := w.trace[from..]];
      VisitedTurn(pools, nodes, before, turns, opts, i, counters, byPool);
      assert turns[..i + 1][..i] == before[..i];
    }
    assert turns[..|nodes|] == turns;
    ok := true;
  }

  // Reading a missing key of a Go map of ints gives zero.
  function Left(byPool: map<string, int>, name: string): int {
    if name in byPool then byPool[name] else 0
  }

  // A node's turn is taken exactly when its pool's counter is above the floor, runs to a legal
  // end, and lowers that counter by one exactly when the node was deleted.
  ghost predicate Visited(pools: seq<Pool>, n: Node, opts: Options, byPool: map<string, int>, left: map<string, int>,
                          events: seq<Event>)
  {
    var p := PoolForNode(n, pools);
    && (events != [] <==> p.Some? && Left(byPool, pools[p.value].name) > pools[p.value].minNodes)
    && (events != [] ==> Ended(StageOf(Turn(n, opts), events)))
    && forall name :: Left(left, name) ==
         Left(byPool, name) -
         if NodeIn(n, name) && events != [] && StageOf(Turn(n, opts), events) == Done(true) then 1 else 0
  }

  // The body of the node loop, with the counter map it leaves behind.
  method VisitNode(w: World, pools: seq<Pool>, n: Node, byPool: map<string, int>, opts: Options)
    returns (left: map<string, int>)
    modifies w
    ensures old(w.trace) <= w.trace
    ensures Visited(pools, n, opts, byPool, left, w.trace[|old(w.trace)|..])
  {
    left := byPool;
    var p := PoolForNode(n, pools);
    if p.None? {
      return;
    }
    var pool := pools[p.value];
    if Left(byPool, pool.name) <= pool.minNodes {
      return;
    }
    var deleted := TakeTurn(w, Turn(n, opts), |w.trace|);
    if deleted {
      left := byPool[pool.name := Left(byPool, pool.name) - 1];
    }
  }

  // The counters say, for every pool, what is left of its listed nodes before turn i.
  ghost predicate CountersOk(nodes: seq<Node>, turns: seq<seq<Event>>, opts: Options, byPool: map<string, int>, i: nat)
    requires i <= |nodes| == |turns|
  {
    forall name :: Left(byPool, name) == NodesIn(nodes, name) - DeletedIn(nodes, turns, opts, name, i)
  }

  // Filling in turn i keeps the records of the earlier turns.
  lemma VisitedTurn(pools: seq<Pool>, nodes: seq<Node>, before: seq<seq<Event>>, turns: seq<seq<Event>>,
                    opts: Options, i: nat, byPool: map<string, int>, left: map<string, int>)
    requires i < |nodes| == |before| == |turns| && turns == before[i := turns[i]]
    requires CountersOk(nodes, before, opts, byPool, i)
    requires Visited(pools, nodes[i], opts, byPool, left, turns[i])
    requires forall j: nat :: j < i ==> TurnOk(pools, nodes, before, opts, j)
    ensures CountersOk(nodes, turns, opts, left, i + 1)
    ensures forall j: nat :: j <= i ==> TurnOk(pools, nodes, turns, opts, j)
  {
    hide NodesIn, StageOf;
    forall name, j: nat | j <= i
      ensures DeletedIn(nodes, turns, opts, name, j) == DeletedIn(nodes, before, opts, name, j)
    {
      DeletedInPrefix(nodes, turns, before, opts, name, j);
    }
    forall j: nat | j <= i
      ensures TurnOk(pools, nodes, turns, opts, j)
    {
      assert j < i ==> TurnOk(pools, nodes, before, opts, j);
    }
  }
}
