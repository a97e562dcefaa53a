/** What a tick may tell one waiter, spelled out in status texts, names and times: the meaning
    of the decision, without the functions that compute it. */
module WatcherMeaning {
  import opened Common
  import opened KamateraTypes
  import opened WatcherTick

  // The entry of that id that a queue answer ends with.
  predicate EntryAt(queue: seq<QueueStatus>, id: string, i: nat) {
    i < |queue| && queue[i].id == id && forall j :: i < j < |queue| ==> queue[j].id != id
  }

  ghost predicate EndsIn(queue: seq<QueueStatus>, id: string, status: string, server: string) {
    exists i: nat :: EntryAt(queue, id, i) && queue[i].status == status && queue[i].server == server
  }

  lemma {:induction false} LastStatusIsLast(queue: seq<QueueStatus>, id: string)
    ensures LastStatus(queue, id).None? <==> forall i :: 0 <= i < |queue| ==> queue[i].id != id
    ensures LastStatus(queue, id).Some? ==>
              exists i: nat :: EntryAt(queue, id, i) && queue[i] == LastStatus(queue, id).value
  {
    if queue != [] {
      var n := |queue| - 1;
      var init := queue[..n];
      LastStatusIsLast(init, id);
      assert forall i :: 0 <= i < n ==> queue[i] == init[i];
      if queue[n].id == id {
        assert EntryAt(queue, id, n);
      } else if LastStatus(init, id).Some? {
        var i: nat :| EntryAt(init, id, i) && init[i] == LastStatus(init, id).value;
        assert EntryAt(queue, id, i);
      }
    }
  }

  // At its position the last entry is the one that counts.
  lemma EntryIsLastStatus(queue: seq<QueueStatus>, id: string, i: nat)
    requires EntryAt(queue, id, i)
    ensures LastStatus(queue, id) == Some(queue[i])
  {
    LastStatusIsLast(queue, id);
  }

  lemma ServerIsLastNamed(servers: seq<Server>, name: string, k: nat)
    requires LastAt(servers, name, k)
    ensures LastNamed(servers, name) == Some(servers[k])
  {
    LastNamedIsLast(servers, name);
  }

  // A result that a tick may give a waiter, in plain terms. `queue` and `servers` are None
  // when the listing failed.
  ghost predicate Justified(c: Cmd, now: int, queue: Option<seq<QueueStatus>>, servers: Option<seq<Server>>,
                            r: WaitResult)
  {
    match r.err
    // Success: the command completed in time, and the server is the last listed one of the
    // name to enrich, or carries the queue's server name when there is nothing to enrich.
    case None =>
      && now <= c.deadline && queue.Some?
      && exists i: nat ::
           && EntryAt(queue.value, c.commandID, i) && queue.value[i].status == "complete"
           && if c.enrichName == "" then r.server == Server("", queue.value[i].server, "", "")
              else
                && servers.Some?
                && exists k: nat :: LastAt(servers.value, c.enrichName, k) && r.server == servers.value[k]
    case Some(Timeout(id)) => now > c.deadline && id == c.commandID && r.server == Server("", "", "", "")
    // Failure: the command ended in an error or was cancelled, whatever the server list says.
    case Some(CommandFailed(id, status)) =>
      && now <= c.deadline && id == c.commandID && r.server == Server("", "", "", "") && queue.Some?
      && (status == "error" || status == "cancelled")
      && exists i: nat :: EntryAt(queue.value, c.commandID, i) && queue.value[i].status == status
    // Completed, but no listed server has the name.
    case Some(ServerMissing(id, name)) =>
      && now <= c.deadline && id == c.commandID && name == c.enrichName != "" && queue.Some? && servers.Some?
      && (forall k :: 0 <= k < |servers.value| ==> servers.value[k].name != name)
      && exists i: nat ::
           && EntryAt(queue.value, c.commandID, i) && queue.value[i].status == "complete"
           && r.server == Server("", queue.value[i].server, "", "")
  }

  // THE DECISION, SPELLED OUT. A tick gives a waiter a result exactly when that result is
  // justified; in particular it gives at most one.
  lemma DecideIsJustified(c: Cmd, now: int, queue: Option<seq<QueueStatus>>, servers: Option<seq<Server>>,
                          r: WaitResult)
    ensures Decide(c, now, queue, servers) == Some(r) <==> Justified(c, now, queue, servers, r)
  {
    if queue.Some? {
      LastStatusIsLast(queue.value, c.commandID);
      forall i: nat | EntryAt(queue.value, c.commandID, i)
        ensures LastStatus(queue.value, c.commandID) == Some(queue.value[i])
      {
        EntryIsLastStatus(queue.value, c.commandID, i);
      }
    }
    if servers.Some? {
      LastNamedIsLast(servers.value, c.enrichName);
      forall k: nat | LastAt(servers.value, c.enrichName, k)
        ensures LastNamed(servers.value, c.enrichName) == Some(servers.value[k])
      {
        ServerIsLastNamed(servers.value, c.enrichName, k);
      }
    }
    hide LastStatus, LastNamed;
  }

  // Exactly when a waiter stays pending: in time, and the queue list failed, or does not show
  // its command, or shows it last in any other status, or shows it complete while the server
  // list it needs failed.
  lemma StaysPending(c: Cmd, now: int, queue: Option<seq<QueueStatus>>, servers: Option<seq<Server>>)
    ensures Decide(c, now, queue, servers).None? <==>
            && now <= c.deadline
            && (queue.Some? ==> forall i: nat :: EntryAt(queue.value, c.commandID, i) ==>
                  && queue.value[i].status != "error" && queue.value[i].status != "cancelled"
                  && (queue.value[i].status == "complete" ==> c.enrichName != "" && servers.None?))
  {
    if queue.Some? {
      LastStatusIsLast(queue.value, c.commandID);
      forall i: nat | EntryAt(queue.value, c.commandID, i)
        ensures LastStatus(queue.value, c.commandID) == Some(queue.value[i])
      {
        EntryIsLastStatus(queue.value, c.commandID, i);
      }
    }
    hide LastStatus;
  }

  // A waiter needs the server list exactly when its command completed in time and there is
  // something to enrich.
  lemma NeedsServerList(c: Cmd, now: int, queue: seq<QueueStatus>)
    ensures AsksForServers(c, now, queue) <==>
            && now <= c.deadline && c.enrichName != ""
            && exists i: nat :: EntryAt(queue, c.commandID, i) && queue[i].status == "complete"
  {
    LastStatusIsLast(queue, c.commandID);
    forall i: nat | EntryAt(queue, c.commandID, i)
      ensures LastStatus(queue, c.commandID) == Some(queue[i])
    {
      EntryIsLastStatus(queue, c.commandID, i);
    }
    hide LastStatus;
  }

  // The first pass decides as if there were nothing to enrich.
  lemma TentativeIsJustified(c: Cmd, now: int, queue: seq<QueueStatus>, r: WaitResult)
    ensures Tentative(c, now, queue) == Some(r) <==>
            Justified(Cmd(c.commandID, "", c.deadline), now, Some(queue), None, r)
  {
    DecideIsJustified(Cmd(c.commandID, "", c.deadline), now, Some(queue), None, r);
    hide Justified, LastStatus;
  }
}
