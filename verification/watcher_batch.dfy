/** The unlocked middle of a tick: build the two indexes, decide in a first pass, drop or
    enrich in place. Proved equal to `Resolve`, the waiter-by-waiter decision. */
module WatcherBatch {
  import opened Common
  import opened KamateraTypes
  import opened WatcherTick
  import opened WatcherMeaning
  import opened WatcherTable
  import opened Watcher

  type Done = Completion<PendingCmd>

  function Filter<T>(xs: seq<T>, keep: T -> bool): (r: seq<T>)
    ensures |r| <= |xs|
  {
    if xs == [] then []
    else
      var n := |xs| - 1;
      Filter(xs[..n], keep) + if keep(xs[n]) then [xs[n]] else []
  }

  // Keeps what `keep` accepts, writing into the array it is reading; returns the new length.
  // Slots past the new length still hold old values, as the tail of the shared slice does.
  method RetainCompletions<T>(a: array<T>, n: nat, keep: T -> bool) returns (kept: nat)
    requires n <= a.Length
    modifies a
    ensures kept <= n && a[..kept] == Filter(old(a[..n]), keep)
    ensures a[n..] == old(a[n..])
  {
    kept := 0;
    ghost var was := a[..];
    for i := 0 to n
      invariant kept <= i
      invariant a[..kept] == Filter(was[..i], keep)
      invariant a[i..] == was[i..]
    {
      assert was[..i + 1][..i] == was[..i] && a[i] == was[i];
      if keep(a[i]) {
        a[kept] := a[i];
        kept := kept + 1;
      }
    }
    assert was[..n] == old(a[..n]);
  }

  // queueByID: later entries overwrite earlier ones.
  method IndexQueue(queue: seq<QueueStatus>) returns (byID: map<string, QueueStatus>)
    ensures forall id :: id in byID <==> LastStatus(queue, id).Some?
    ensures forall id :: id in byID ==> LastStatus(queue, id) == Some(byID[id])
  {
    byID := map[];
    for k := 0 to |queue|
      invariant forall id :: id in byID <==> LastStatus(queue[..k], id).Some?
      invariant forall id :: id in byID ==> LastStatus(queue[..k], id) == Some(byID[id])
    {
      assert queue[..k + 1][..k] == queue[..k];
      byID := byID[queue[k].id := queue[k]];
    }
    assert queue[..|queue|] == queue;
  }

  // serverByName: later entries overwrite earlier ones.
  method IndexServers(servers: seq<Server>) returns (byName: map<string, Server>)
    ensures forall name :: name in byName <==> LastNamed(servers, name).Some?
    ensures forall name :: name in byName ==> LastNamed(servers, name) == Some(byName[name])
  {
    byName := map[];
    for k := 0 to |servers|
      invariant forall name :: name in byName <==> LastNamed(servers[..k], name).Some?
      invariant forall name :: name in byName ==> LastNamed(servers[..k], name) == Some(byName[name])
    {
      assert servers[..k + 1][..k] == servers[..k];
      byName := byName[servers[k].name := servers[k]];
    }
    assert servers[..|servers|] == servers;
  }

  function Enriched(c: Cmd, r: WaitResult, servers: seq<Server>): WaitResult {
    if !WantsServer(c, r) then r
    else
      match LastNamed(servers, c.enrichName)
      case Some(srv) => r.(server := srv)
      case None => r.(err := Some(ServerMissing(c.commandID, c.enrichName)))
  }

  function Tentatives(snap: seq<PendingCmd>, now: int, queue: seq<QueueStatus>): (outs: seq<Option<WaitResult>>)
    ensures |outs| == |snap| && forall i :: 0 <= i < |snap| ==> outs[i] == Tentative(snap[i].cmd, now, queue)
  {
    seq(|snap|, i requires 0 <= i < |snap| => Tentative(snap[i].cmd, now, queue))
  }

  function FirstPass(snap: seq<PendingCmd>, now: int, queue: seq<QueueStatus>): seq<Done> {
    Pick(snap, Tentatives(snap, now, queue))
  }

  // The two ways the second pass ends: enrich everything, or drop what needs a server.
  function EnrichAll(xs: seq<Done>, servers: seq<Server>): (ys: seq<Done>)
    ensures |ys| == |xs|
    ensures forall i :: 0 <= i < |xs| ==>
              ys[i] == Completion(xs[i].who, Enriched(xs[i].who.cmd, xs[i].result, servers))
  {
    if xs == [] then []
    else
      var n := |xs| - 1;
      EnrichAll(xs[..n], servers) + [Completion(xs[n].who, Enriched(xs[n].who.cmd, xs[n].result, servers))]
  }

  predicate NeedsNoServer(c: Done) {
    c.result.err.Some? || c.who.cmd.enrichName == ""
  }

  // One waiter: finishing its tentative result is deciding it.
  lemma FinishIsDecide(c: Cmd, now: int, queue: seq<QueueStatus>, servers: Option<seq<Server>>)
    ensures
      Decide(c, now, Some(queue), servers) ==
      match Tentative(c, now, queue)
      case None => None
      case Some(r) =>
        if !WantsServer(c, r) then Some(r)
        else if servers.None? then None
        else Some(Enriched(c, r, servers.value))
  { }

  lemma {:induction false} EnrichPicked(snap: seq<PendingCmd>, outs: seq<Option<WaitResult>>,
      final: seq<Option<WaitResult>>, servers: seq<Server>)
    requires |snap| == |outs| == |final|
    requires forall i :: 0 <= i < |outs| ==>
               final[i] == if outs[i].Some? then Some(Enriched(snap[i].cmd, outs[i].value, servers)) else None
    ensures EnrichAll(Pick(snap, outs), servers) == Pick(snap, final)
  {
    if snap != [] {
      var n := |snap| - 1;
      EnrichPicked(snap[..n], outs[..n], final[..n], servers);
      var xs := Pick(snap[..n], outs[..n]);
      if outs[n].Some? {
        assert (xs + [Completion(snap[n], outs[n].value)])[..|xs|] == xs;
      } else {
        assert xs + [] == xs;
      }
    }
  }

  lemma {:induction false} FilterPicked(snap: seq<PendingCmd>, outs: seq<Option<WaitResult>>,
      final: seq<Option<WaitResult>>)
    requires |snap| == |outs| == |final|
    requires forall i :: 0 <= i < |outs| ==>
               final[i] == if outs[i].Some? && NeedsNoServer(Completion(snap[i], outs[i].value)) then outs[i] else None
    ensures Filter(Pick(snap, outs), NeedsNoServer) == Pick(snap, final)
  {
    if snap != [] {
      var n := |snap| - 1;
      FilterPicked(snap[..n], outs[..n], final[..n]);
      var xs := Pick(snap[..n], outs[..n]);
      if outs[n].Some? {
        assert (xs + [Completion(snap[n], outs[n].value)])[..|xs|] == xs;
      } else {
        assert xs + [] == xs;
      }
    }
  }

  lemma EnrichedPassIsResolve(snap: seq<PendingCmd>, now: int, queue: seq<QueueStatus>, servers: seq<Server>)
    ensures EnrichAll(FirstPass(snap, now, queue), servers)
              == Resolve(snap, CmdsOf(snap), now, Some(queue), Some(servers))
  {
    forall i | 0 <= i < |snap| {
      FinishIsDecide(snap[i].cmd, now, queue, Some(servers));
    }
    EnrichPicked(snap, Tentatives(snap, now, queue), Decisions(CmdsOf(snap), now, Some(queue), Some(servers)), servers);
  }

  lemma DeferredPassIsResolve(snap: seq<PendingCmd>, now: int, queue: seq<QueueStatus>)
    ensures Filter(FirstPass(snap, now, queue), NeedsNoServer)
              == Resolve(snap, CmdsOf(snap), now, Some(queue), None)
  {
    forall i | 0 <= i < |snap| {
      FinishIsDecide(snap[i].cmd, now, queue, None);
    }
    FilterPicked(snap, Tentatives(snap, now, queue), Decisions(CmdsOf(snap), now, Some(queue), None));
  }

  // Nobody asked: the answer the server list would have given makes no difference.
  lemma UnaskedPassIsResolve(snap: seq<PendingCmd>, now: int,
      queue: seq<QueueStatus>, servers: Option<seq<Server>>)
    requires forall p :: p in snap ==> !AsksForServers(p.cmd, now, queue)
    ensures FirstPass(snap, now, queue) == Resolve(snap, CmdsOf(snap), now, Some(queue), servers)
    ensures forall c :: c in FirstPass(snap, now, queue) ==> NeedsNoServer(c)
  {
    forall i | 0 <= i < |snap|
      ensures Tentatives(snap, now, queue)[i] == Decisions(CmdsOf(snap), now, Some(queue), servers)[i]
    {
      assert snap[i] in snap;
      FinishIsDecide(snap[i].cmd, now, queue, servers);
    }
    assert Tentatives(snap, now, queue) == Decisions(CmdsOf(snap), now, Some(queue), servers);
    forall c | c in FirstPass(snap, now, queue)
      ensures NeedsNoServer(c)
    {
      PickMembers(snap, Tentatives(snap, now, queue), c);
    }
  }

  lemma EnrichNothing(xs: seq<Done>, servers: seq<Server>)
    requires forall c :: c in xs ==> NeedsNoServer(c)
    ensures EnrichAll(xs, servers) == xs
  {
    forall i | 0 <= i < |xs|
      ensures EnrichAll(xs, servers)[i] == xs[i]
    {
      assert NeedsNoServer(xs[i]);
    }
  }

  // The loop that finishes the surviving completions where they are.
  method ApplyEnrichment(a: array<Done>, n: nat, byName: map<string, Server>, ghost servers: seq<Server>)
    requires n <= a.Length
    requires forall name :: name in byName <==> LastNamed(servers, name).Some?
    requires forall name :: name in byName ==> LastNamed(servers, name) == Some(byName[name])
    modifies a
    ensures a[..n] == EnrichAll(old(a[..n]), servers)
  {
    ghost var was := a[..n];
    for i := 0 to n
      invariant forall k :: i <= k < n ==> a[k] == was[k]
      invariant a[..i] == EnrichAll(was[..i], servers)
    {
      assert was[..i + 1][..i] == was[..i] && a[i] == was[i];
      if a[i].result.err.Some? || a[i].who.cmd.enrichName == "" {
      } else if a[i].who.cmd.enrichName in byName {
        a[i] := a[i].(result := a[i].result.(server := byName[a[i].who.cmd.enrichName]));
      } else {
        var c := a[i].who.cmd;
        a[i] := a[i].(result := a[i].result.(err := Some(ServerMissing(c.commandID, c.enrichName))));
      }
    }
    assert was[..n] == was;
  }

  // What is in the first pass, and in the whole batch, in plain terms.
  lemma FirstPassIsJustified(snap: seq<PendingCmd>, now: int, queue: seq<QueueStatus>)
    ensures forall p, r :: Completion(p, r) in FirstPass(snap, now, queue) <==>
              p in snap && Justified(Cmd(p.cmd.commandID, "", p.cmd.deadline), now, Some(queue), None, r)
  {
    hide Justified, Tentative, Pick;
    forall p, r
      ensures Completion(p, r) in FirstPass(snap, now, queue) <==>
              p in snap && Justified(Cmd(p.cmd.commandID, "", p.cmd.deadline), now, Some(queue), None, r)
    {
      PickMembers(snap, Tentatives(snap, now, queue), Completion(p, r));
      TentativeIsJustified(p.cmd, now, queue, r);
    }
  }

  lemma BatchIsJustified(snap: seq<PendingCmd>, now: int, queue: Option<seq<QueueStatus>>, servers: Option<seq<Server>>)
    ensures forall p, r :: Completion(p, r) in Resolve(snap, CmdsOf(snap), now, queue, servers) <==>
              p in snap && Justified(p.cmd, now, queue, servers, r)
  {
    hide Justified, Decide, Resolve;
    forall p, r
      ensures Completion(p, r) in Resolve(snap, CmdsOf(snap), now, queue, servers) <==>
              p in snap && Justified(p.cmd, now, queue, servers, r)
    {
      ResolveMembers(snap, CmdsOf(snap), now, queue, servers, Completion(p, r));
      DecideIsJustified(p.cmd, now, queue, servers, r);
    }
  }

  // The first pass over the snapshot, and the names of the servers it needs.
  method DecideWithoutServers(snap: seq<PendingCmd>, now: int, queue: seq<QueueStatus>)
    returns (completed: seq<Done>, namesToEnrich: seq<string>)
    ensures completed == FirstPass(snap, now, queue)
    ensures forall p, r :: Completion(p, r) in completed <==>
              p in snap && Justified(Cmd(p.cmd.commandID, "", p.cmd.deadline), now, Some(queue), None, r)
    ensures namesToEnrich != [] <==> exists p :: p in snap && AsksForServers(p.cmd, now, queue)
  {
    var byID := IndexQueue(queue);
    completed, namesToEnrich := [], [];
    ghost var outs := Tentatives(snap, now, queue);
    for k := 0 to |snap|
      invariant completed == Pick(snap[..k], outs[..k])
      invariant namesToEnrich != [] <==> exists p :: p in snap[..k] && AsksForServers(p.cmd, now, queue)
    {
      assert snap[..k + 1][..k] == snap[..k] && outs[..k + 1][..k] == outs[..k];
      assert forall p :: p in snap[..k + 1] <==> p in snap[..k] || p == snap[k];
      var c := snap[k].cmd;
      if now > c.deadline {
        completed := completed + [Completion(snap[k], TimedOut(c))];
        continue;
      }
      if c.commandID !in byID {
        continue;
      }
      var q := byID[c.commandID];
      if IsFailure(q.status) {
        var failure := WaitResult(ZERO_SERVER, Some(CommandFailed(c.commandID, q.status)));
        completed := completed + [Completion(snap[k], failure)];
        continue;
      }
      if IsTerminal(q.status) {
        completed := completed + [Completion(snap[k], WaitResult(ZERO_SERVER.(name := q.server), None))];
        if c.enrichName != "" {
          namesToEnrich := namesToEnrich + [c.enrichName];
        }
      }
    }
    assert snap[..|snap|] == snap && outs[..|snap|] == outs;
    FirstPassIsJustified(snap, now, queue);
  }

  // The whole unlocked middle of a tick whose queue list arrived. `servers` is the answer
  // the server list gives if it is asked; it is asked at most once, and only when some
  // waiter of the snapshot needs it.
  method ResolveBatch(snap: seq<PendingCmd>, now: int, queue: seq<QueueStatus>, servers: Option<seq<Server>>)
    returns (completed: seq<Done>, asked: bool)
    ensures completed == Resolve(snap, CmdsOf(snap), now, Some(queue), servers)
    ensures forall p, r :: Completion(p, r) in completed <==>
              p in snap && Justified(p.cmd, now, Some(queue), servers, r)
    ensures asked <==> exists p :: p in snap && AsksForServers(p.cmd, now, queue)
  {
    var found, namesToEnrich := DecideWithoutServers(snap, now, queue);
    asked := |namesToEnrich| > 0;
    var a := new Done[|found|](i requires 0 <= i < |found| => found[i]);
    var n := a.Length;
    assert a[..n] == found;
    hide FirstPass, Resolve, EnrichAll, Filter, AsksForServers, NeedsNoServer, Justified;
    if asked && servers.None? {
      n := RetainCompletions(a, n, NeedsNoServer);
      DeferredPassIsResolve(snap, now, queue);
      completed := a[..n];
    } else if asked {
      var byName := IndexServers(servers.value);
      ApplyEnrichment(a, n, byName, servers.value);
      EnrichedPassIsResolve(snap, now, queue, servers.value);
      completed := a[..n];
    } else {
      UnaskedPassIsResolve(snap, now, queue, servers);
      EnrichNothing(found, []);
      ApplyEnrichment(a, n, map[], []);
      completed := a[..n];
    }
    assert completed == Resolve(snap, CmdsOf(snap), now, Some(queue), servers);
    BatchIsJustified(snap, now, Some(queue), servers);
  }

  // The batch under acceptance numbers, ready to deliver.
  method ResolveNumbered(snap: seq<PendingCmd>, now: int, queue: seq<QueueStatus>, servers: Option<seq<Server>>)
    returns (completed: seq<Done>, asked: bool)
    ensures Numbered(completed) == Resolve(WidsOf(snap), CmdsOf(snap), now, Some(queue), servers)
    ensures forall c :: c in completed ==> c.who in snap
    ensures asked <==> exists p :: p in snap && AsksForServers(p.cmd, now, queue)
  {
    completed, asked := ResolveBatch(snap, now, queue, servers);
    NumberedPick(snap, Decisions(CmdsOf(snap), now, Some(queue), servers));
    ResolvedAreListed(snap, now, Some(queue), servers);
  }

  // The answered half of a tick: decide outside the lock, then deliver.
  method TickAnswered(w: CmdWatcher, snap: seq<PendingCmd>, now: int, queue: seq<QueueStatus>,
                      servers: Option<seq<Server>>)
    returns (asked: bool)
    requires w.Valid() && forall p :: p in snap ==> p in w.accepted
    modifies w`pending, w`table, w.accepted`slot, w.accepted`closed, w.accepted`sends
    ensures w.Valid()
    ensures w.table == DeliverAll(old(w.table), Resolve(WidsOf(snap), CmdsOf(snap), now, Some(queue), servers))
    ensures asked <==> exists p :: p in snap && AsksForServers(p.cmd, now, queue)
  {
    hide TableOk, CmdWatcher.Linked, CmdWatcher.Valid, DeliverAll, Resolve, Numbered, WidsOf, CmdsOf, AsksForServers;
    var completed;
    completed, asked := ResolveNumbered(snap, now, queue, servers);
    assert forall c :: c in completed ==> c.who in w.accepted;
    w.Deliver(completed);
  }

  // Everything a tick does after its snapshot. `polled`: the queue list was asked for, which it
  // is only for some waiter.
  method TickRest(w: CmdWatcher, snap: seq<PendingCmd>, now: int,
                  queue: Option<seq<QueueStatus>>, servers: Option<seq<Server>>)
    returns (polled: bool, asked: bool)
    requires w.Valid() && forall p :: p in snap ==> p in w.accepted
    modifies w`pending, w`table, w.accepted`slot, w.accepted`closed, w.accepted`sends
    ensures w.Valid()
    ensures w.table == DeliverAll(old(w.table), Resolve(WidsOf(snap), CmdsOf(snap), now, queue, servers))
    ensures polled <==> snap != []
    ensures asked <==> queue.Some? && exists p :: p in snap && AsksForServers(p.cmd, now, queue.value)
  {
    hide TableOk, CmdWatcher.Linked, DeliverOne, Decide, AsksForServers;
    polled, asked := false, false;
    if |snap| == 0 {
      return;
    }
    polled := true;
    if queue.None? {
      ExpiryIgnoresServers(WidsOf(snap), CmdsOf(snap), now, servers);
      w.ExpireDeadlines(snap, now);
    } else {
      asked := TickAnswered(w, snap, now, queue.value, servers);
    }
  }

  // One whole tick that nothing interrupts between its two critical sections: the table
  // changes by exactly the decisions of the pending waiters. Interrupted ticks are runs of
  // the step system in WatcherRuns.
  method Tick(w: CmdWatcher, now: int, queue: Option<seq<QueueStatus>>, servers: Option<seq<Server>>)
    returns (snap: seq<PendingCmd>, polled: bool, asked: bool)
    requires w.Valid()
    modifies w`pending, w`table, w.accepted`slot, w.accepted`closed, w.accepted`sends
    ensures w.Valid()
    ensures forall p :: p in snap <==> p in old(w.pending).Values
    ensures w.table == DeliverAll(old(w.table), Resolve(WidsOf(snap), CmdsOf(snap), now, queue, servers))
    ensures polled <==> snap != []
    ensures asked <==> queue.Some? && exists p :: p in snap && AsksForServers(p.cmd, now, queue.value)
  {
    snap := w.Snapshot();
    polled, asked := TickRest(w, snap, now, queue, servers);
  }

  lemma ResolvedAreListed(snap: seq<PendingCmd>, now: int,
      queue: Option<seq<QueueStatus>>, servers: Option<seq<Server>>)
    ensures forall c :: c in Resolve(snap, CmdsOf(snap), now, queue, servers) ==> c.who in snap
  {
    forall c | c in Resolve(snap, CmdsOf(snap), now, queue, servers)
      ensures c.who in snap
    {
      ResolveMembers(snap, CmdsOf(snap), now, queue, servers, c);
    }
  }

  lemma ExpiryIgnoresServers<P>(who: seq<P>, cmds: seq<Cmd>, now: int, servers: Option<seq<Server>>)
    requires |who| == |cmds|
    ensures Resolve(who, cmds, now, None, servers) == Resolve(who, cmds, now, None, None)
  {
    assert Decisions(cmds, now, None, servers) == Decisions(cmds, now, None, None);
  }

  lemma {:induction false} NumberedPick(snap: seq<PendingCmd>, outs: seq<Option<WaitResult>>)
    requires |snap| == |outs|
    ensures Numbered(Pick(snap, outs)) == Pick(WidsOf(snap), outs)
  {
    if snap != [] {
      var n := |snap| - 1;
      NumberedPick(snap[..n], outs[..n]);
      assert WidsOf(snap)[..n] == WidsOf(snap[..n]);
      var xs := Pick(snap[..n], outs[..n]);
      if outs[n].Some? {
        assert (xs + [Completion(snap[n], outs[n].value)])[..|xs|] == xs;
      } else {
        assert xs + [] == xs;
      }
    }
  }
}
