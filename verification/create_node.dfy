/** The goroutine that creates one node, and the create-once guarantee from the scale-up tick
    down to the HTTP request. */
module CreateNode {
  import opened Common
  import PoolMatch
  import Tracker
  import ScaleUp
  import ScaleUpTheorems
  import opened Client

  // Create requests sent for a name.
  function Posts(events: seq<Event>, name: string): nat {
    if events == [] then 0
    else
      var e := events[|events| - 1];
      Posts(events[..|events| - 1], name) + if e.Request? && e.call == CreateCall(name) then 1 else 0
  }

  lemma {:induction false} PostsAdd(a: seq<Event>, b: seq<Event>, name: string)
    ensures Posts(a + b, name) == Posts(a, name) + Posts(b, name)
  {
    if b == [] {
      assert a + b == a;
    } else {
      assert (a + b)[..|a + b| - 1] == a + b[..|b| - 1];
      PostsAdd(a, b[..|b| - 1], name);
    }
  }

  lemma {:induction false} NoRequestNoPost(events: seq<Event>, name: string)
    requires forall k :: 0 <= k < |events| ==> !events[k].Request?
    ensures Posts(events, name) == 0
  {
    if events != [] {
      NoRequestNoPost(events[..|events| - 1], name);
    }
  }

  // The events of one creation: one create request for its own name if one was sent at all,
  // and none for any other name.
  ghost predicate PostsOnly(events: seq<Event>, name: string, sent: bool) {
    forall n :: Posts(events, n) == if n == name && sent then 1 else 0
  }

  lemma OnePost(name: string, o: Outcome, rest: seq<Event>)
    requires forall k :: 0 <= k < |rest| ==> !rest[k].Request?
    ensures PostsOnly([Request(CreateCall(name), o)] + rest, name, true)
  {
    var first := Request(CreateCall(name), o);
    forall n
      ensures Posts([first] + rest, n) == if n == name then 1 else 0
    {
      PostsAdd([first], rest, n);
      NoRequestNoPost(rest, n);
      assert [first][..0] == [];
    }
  }

  lemma NothingPosted(name: string)
    ensures PostsOnly([], name, false)
  { }

  lemma OtherEvent(events: seq<Event>, e: Event, name: string, sent: bool)
    requires PostsOnly(events, name, sent) && !e.Request?
    ensures PostsOnly(events + [e], name, sent)
  {
    assert (events + [e])[..|events|] == events;
  }

  ghost predicate PostsAtMostOnce(events: seq<Event>, name: string) {
    PostsOnly(events, name, true) || PostsOnly(events, name, false)
  }

  // The deferred removal of the tracker entry.
  method DropEntry(api: Api, creating: Tracker.PendingTracker, nodeName: string)
    modifies api`trace, creating
    ensures creating.entries == old(creating.entries) - {nodeName}
    ensures api.trace == old(api.trace) + [Dropped(nodeName, nodeName in old(creating.entries))]
  {
    var held := nodeName in creating.entries;
    creating.Remove(nodeName);
    api.Note(Dropped(nodeName, held));
  }

  // What a create comes to after its request: the wait for an accepted command, or a recovery.
  ghost predicate Aftermath(p: Params, name: string, o: Outcome, events: seq<Event>)
    requires ValidParams(p)
  {
    match o
    // Accepted: the watcher answers for the command before anything else.
    case Success(id) =>
      if id.Some? then |events| == 1 && events[0].Provisioned? && events[0].commandID == id.value else events == []
    case Status(_) => events == []
    // No answer: a whole recovery poll, and no wait after it.
    case _ => PollOf(p, name, events).Over?
  }

  // The events of a creation: at most its request and what that came to, and at the very end
  // the drop of its entry.
  ghost predicate CreationEvents(p: Params, name: string, requested: bool, held: bool, events: seq<Event>)
    requires ValidParams(p)
  {
    if !requested then events == [Dropped(name, held)]
    else
      && |events| >= 2 && events[0].Request? && events[0].call == CreateCall(name)
      && events[|events| - 1] == Dropped(name, held)
      && Aftermath(p, name, events[0].outcome, events[1..|events| - 1])
  }

  // createNode. The create request goes out once if the cloud-init rendered and the body could
  // be built, and never again. The tracker entry is held until the very end: it is dropped on
  // every return, and after an accepted create only when the watcher has answered.
  method CreateNode(api: Api, creating: Tracker.PendingTracker, p: Params, nodeName: string,
                    renderOk: bool, bodyOk: bool)
    requires ValidParams(p)
    modifies api, creating
    ensures creating.entries == old(creating.entries) - {nodeName}
    ensures old(api.trace) <= api.trace
    ensures CreationEvents(p, nodeName, renderOk && bodyOk, nodeName in old(creating.entries),
                           api.trace[|old(api.trace)|..])
    ensures PostsOnly(api.trace[|old(api.trace)|..], nodeName, renderOk && bodyOk)
  {
    hide PostsOnly, CreateOutcome, CreationEvents;
    ghost var base := |api.trace|;
    ghost var held := nodeName in creating.entries;
    assert api.trace[base..] == [];
    NothingSent(p, nodeName, held);
    if !renderOk {
      DropEntry(api, creating, nodeName);
      assert api.trace[base..] == [] + [Dropped(nodeName, held)];
      return;
    }
    var created, sent := CreateServer(api, p, nodeName, bodyOk);
    ghost var rest: seq<Event> := [];
    if bodyOk {
      rest :| api.trace == old(api.trace) + [Request(CreateCall(nodeName), sent.value)] + rest
              && CreateOutcome(p, nodeName, sent.value, rest, created);
    }
    ghost var wait: seq<Event> := [];
    if created.Queued? {
      var ok := api.WaitProvision(created.commandID);
      wait := [Provisioned(created.commandID, ok)];
    }
    DropEntry(api, creating, nodeName);
    if bodyOk {
      var first := Request(CreateCall(nodeName), sent.value);
      assert api.trace[base..] == [first] + rest + wait + [Dropped(nodeName, held)];
      AllSent(p, nodeName, sent.value, rest, created, wait, held);
    } else {
      assert api.trace[base..] == [] + [Dropped(nodeName, held)];
    }
  }

  lemma NothingSent(p: Params, name: string, held: bool)
    requires ValidParams(p)
    ensures CreationEvents(p, name, false, held, [] + [Dropped(name, held)])
    ensures PostsOnly([] + [Dropped(name, held)], name, false)
  {
    NothingPosted(name);
    OtherEvent([], Dropped(name, held), name, false);
  }

  lemma AllSent(p: Params, name: string, o: Outcome, rest: seq<Event>, r: Created, wait: seq<Event>, held: bool)
    requires ValidParams(p) && CreateOutcome(p, name, o, rest, r)
    requires if r.Queued? then |wait| == 1 && wait[0].Provisioned? && wait[0].commandID == r.commandID else wait == []
    ensures
      var events := [Request(CreateCall(name), o)] + rest + wait + [Dropped(name, held)];
      CreationEvents(p, name, true, held, events) && PostsOnly(events, name, true)
  {
    var sofar := [Request(CreateCall(name), o)] + rest;
    var events := sofar + wait + [Dropped(name, held)];
    assert events[1..|events| - 1] == rest + wait;
    assert wait == [] ==> rest + wait == rest && sofar + wait == sofar;
    RecoveryIsSound(p, name, o, rest, r);
    OnePost(name, o, rest);
    hide PostsOnly, PollOf;
    if wait != [] {
      assert wait == [wait[0]];
      OtherEvent(sofar, wait[0], name, true);
    }
    OtherEvent(sofar + wait, Dropped(name, held), name, true);
  }

  // Over the creations started by any number of ticks. Counting does not depend on how their
  // requests interleave.
  function TotalPosts(runs: seq<seq<Event>>, name: string): nat {
    if runs == [] then 0 else TotalPosts(runs[..|runs| - 1], name) + Posts(runs[|runs| - 1], name)
  }

  lemma {:induction false} PostsBound(ls: seq<ScaleUp.Launch>, runs: seq<seq<Event>>, name: string)
    requires |runs| == |ls|
    requires forall i :: 0 <= i < |ls| ==> PostsAtMostOnce(runs[i], ls[i].node)
    requires forall i, j :: 0 <= i < j < |ls| ==> ls[i].node != ls[j].node
    ensures TotalPosts(runs, name) <= 1
    ensures (forall i :: 0 <= i < |ls| ==> ls[i].node != name) ==> TotalPosts(runs, name) == 0
  {
    if runs != [] {
      var n := |runs| - 1;
      PostsBound(ls[..n], runs[..n], name);
      assert PostsAtMostOnce(runs[n], ls[n].node);
      if name == ls[n].node {
        assert forall i :: 0 <= i < n ==> ls[..n][i].node != name;
      }
    }
  }

  // CREATE ONCE, END TO END. With a generator that never repeats a name, over all the
  // creations ever started, however each of them ends, at most one create request is sent
  // for any node name, and none for a name the controller did not generate.
  lemma EachNamePostedOnce(ops: seq<Tracker.Op>, ttl: int, runs: seq<seq<Event>>, name: string)
    requires ScaleUpTheorems.NewNames(ops) && |runs| == |ScaleUp.Started(ops, ttl)|
    requires forall i :: 0 <= i < |runs| ==> PostsAtMostOnce(runs[i], ScaleUp.Started(ops, ttl)[i].node)
    ensures TotalPosts(runs, name) <= 1
    ensures !ScaleUpTheorems.GeneratedIn(ops, name) ==> TotalPosts(runs, name) == 0
  {
    ScaleUpTheorems.LaunchedOnce(ops, ttl);
    PostsBound(ScaleUp.Started(ops, ttl), runs, name);
  }

  // Create requests sent by the creations of one pool.
  function PoolPosts(ls: seq<ScaleUp.Launch>, runs: seq<seq<Event>>, pool: string): nat
    requires |runs| == |ls|
  {
    if ls == [] then 0
    else
      var n := |ls| - 1;
      PoolPosts(ls[..n], runs[..n], pool) + if ls[n].pool == pool then Posts(runs[n], ls[n].node) else 0
  }

  lemma {:induction false} PostsPerLaunch(a: seq<ScaleUp.Launch>, b: seq<ScaleUp.Launch>, runs: seq<seq<Event>>,
                                          pool: string)
    requires a <= b && |runs| == |b| && forall i :: 0 <= i < |b| ==> PostsAtMostOnce(runs[i], b[i].node)
    ensures PoolPosts(b, runs, pool) - PoolPosts(a, runs[..|a|], pool)
              <= ScaleUp.LaunchesOf(b, pool) - ScaleUp.LaunchesOf(a, pool)
  {
    if a == b {
      assert runs[..|a|] == runs;
    } else {
      var n := |b| - 1;
      PostsPerLaunch(a, b[..n], runs[..n], pool);
      assert runs[..n][..|a|] == runs[..|a|];
      assert PostsAtMostOnce(runs[n], b[n].node);
    }
  }

  // The create requests that one tick causes for a pool, whenever they are sent: at most the
  // room below max_nodes by the tick's own count, and none for a pool it does not visit.
  lemma TickPostsAreBounded(pools: seq<PoolMatch.Pool>, pods: seq<PoolMatch.Pod>, nodes: seq<PoolMatch.Node>,
                            h0: seq<Tracker.Op>, h: seq<Tracker.Op>, ttl: int, observed: map<string, nat>,
                            q: string, runs: seq<seq<Event>>)
    requires ScaleUp.IsTick(pools, pods, nodes, h0, h, ttl, observed) && |runs| == |ScaleUp.Started(h, ttl)|
    requires forall i :: 0 <= i < |runs| ==> PostsAtMostOnce(runs[i], ScaleUp.Started(h, ttl)[i].node)
    ensures ScaleUp.Started(h0, ttl) <= ScaleUp.Started(h, ttl)
    ensures q in observed ==> PoolMatch.PoolByName(pools, q).Some?
    ensures
      var l0, l := ScaleUp.Started(h0, ttl), ScaleUp.Started(h, ttl);
      PoolPosts(l, runs, q) - PoolPosts(l0, runs[..|l0|], q) <=
      if q !in observed then 0
      else Max(0, pools[PoolMatch.PoolByName(pools, q).value].maxNodes - (PoolMatch.NodesIn(nodes, q) + observed[q]))
  {
    assert h0 <= h;
    hide ScaleUp.Started, ScaleUp.IsTick, ScaleUp.LaunchesOf, PoolPosts, PostsAtMostOnce;
    ScaleUpTheorems.StartedGrows(h0, h, ttl, q);
    ScaleUpTheorems.TickIsBounded(pools, pods, nodes, h0, h, ttl, observed, q);
    PostsPerLaunch(ScaleUp.Started(h0, ttl), ScaleUp.Started(h, ttl), runs, q);
  }
}
