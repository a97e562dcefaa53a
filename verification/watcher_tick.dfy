/** What one tick decides: a function of one waiter and the two API answers. */
module WatcherTick {
  import opened Common
  import opened KamateraTypes

  datatype Cmd = Cmd(commandID: string, enrichName: string, deadline: int)

  datatype WaitError =
    | Timeout(commandID: string)
    | CommandFailed(commandID: string, status: string)
    | ServerMissing(commandID: string, name: string)

  datatype WaitResult = WaitResult(server: Server, err: Option<WaitError>)

  datatype Completion<P> = Completion(who: P, result: WaitResult)

  function TimedOut(c: Cmd): WaitResult {
    WaitResult(ZERO_SERVER, Some(Timeout(c.commandID)))
  }

  // The one-waiter decision. None: the waiter stays pending. `queue` is None when the
  // queue list failed and `servers` is None when the server list failed.
  function Decide(c: Cmd, now: int, queue: Option<seq<QueueStatus>>, servers: Option<seq<Server>>)
    : Option<WaitResult>
  {
    if now > c.deadline then Some(TimedOut(c))
    else if queue.None? || LastStatus(queue.value, c.commandID).None? then None
    else
      var q := LastStatus(queue.value, c.commandID).value;
      var named := ZERO_SERVER.(name := q.server);
      if IsFailure(q.status) then Some(WaitResult(ZERO_SERVER, Some(CommandFailed(c.commandID, q.status))))
      else if !IsTerminal(q.status) then None
      else if c.enrichName == "" then Some(WaitResult(named, None))
      else if servers.None? then None
      else
        match LastNamed(servers.value, c.enrichName)
        case Some(srv) => Some(WaitResult(srv, None))
        case None => Some(WaitResult(named, Some(ServerMissing(c.commandID, c.enrichName))))
  }

  // What the first pass records for one waiter, before any enrichment.
  function Tentative(c: Cmd, now: int, queue: seq<QueueStatus>): Option<WaitResult> {
    if now > c.deadline then Some(TimedOut(c))
    else
      match LastStatus(queue, c.commandID)
      case None => None
      case Some(q) =>
        if IsFailure(q.status) then Some(WaitResult(ZERO_SERVER, Some(CommandFailed(c.commandID, q.status))))
        else if IsTerminal(q.status) then Some(WaitResult(ZERO_SERVER.(name := q.server), None))
        else None
  }

  predicate WantsServer(c: Cmd, r: WaitResult) {
    r.err.None? && c.enrichName != ""
  }

  // A waiter for which the tick has to ask for the server list.
  predicate AsksForServers(c: Cmd, now: int, queue: seq<QueueStatus>) {
    match Tentative(c, now, queue)
    case Some(r) => WantsServer(c, r)
    case None => false
  }

  function Decisions(cmds: seq<Cmd>, now: int, queue: Option<seq<QueueStatus>>, servers: Option<seq<Server>>)
    : (outs: seq<Option<WaitResult>>)
    ensures |outs| == |cmds| && forall i :: 0 <= i < |cmds| ==> outs[i] == Decide(cmds[i], now, queue, servers)
  {
    seq(|cmds|, i requires 0 <= i < |cmds| => Decide(cmds[i], now, queue, servers))
  }

  // The completions a list of outcomes gives, in snapshot order.
  function Pick<P>(who: seq<P>, outs: seq<Option<WaitResult>>): seq<Completion<P>>
    requires |who| == |outs|
  {
    if who == [] then []
    else
      var n := |who| - 1;
      Pick(who[..n], outs[..n]) + if outs[n].Some? then [Completion(who[n], outs[n].value)] else []
  }

  // The waiters of a snapshot that `Decide` resolves.
  function Resolve<P>(who: seq<P>, cmds: seq<Cmd>, now: int,
                      queue: Option<seq<QueueStatus>>, servers: Option<seq<Server>>): seq<Completion<P>>
    requires |who| == |cmds|
  {
    Pick(who, Decisions(cmds, now, queue, servers))
  }

  lemma {:induction false} PickMembers<P>(who: seq<P>, outs: seq<Option<WaitResult>>, c: Completion<P>)
    requires |who| == |outs|
    ensures c in Pick(who, outs) <==> exists i :: 0 <= i < |who| && who[i] == c.who && outs[i] == Some(c.result)
  {
    if who != [] {
      var n := |who| - 1;
      PickMembers(who[..n], outs[..n], c);
      assert forall i :: 0 <= i < n ==> who[..n][i] == who[i] && outs[..n][i] == outs[i];
    }
  }

  // A completion is in the batch exactly when some snapshot position decides it.
  lemma ResolveMembers<P>(who: seq<P>, cmds: seq<Cmd>, now: int,
      queue: Option<seq<QueueStatus>>, servers: Option<seq<Server>>, c: Completion<P>)
    requires |who| == |cmds|
    ensures c in Resolve(who, cmds, now, queue, servers) <==>
            exists i :: 0 <= i < |who| && who[i] == c.who && Decide(cmds[i], now, queue, servers) == Some(c.result)
  {
    PickMembers(who, Decisions(cmds, now, queue, servers), c);
  }
}
