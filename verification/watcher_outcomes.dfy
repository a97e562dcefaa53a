/** What callers are told in runs of the watcher: only what the delivering tick's own clock
    reading and answers justify. */
module WatcherOutcomes {
  import opened Common
  import opened KamateraTypes
  import opened WatcherTick
  import opened WatcherMeaning
  import opened WatcherTable
  import opened WatcherRuns
  import opened WatcherTheorems

  // After the queue's answer a tick asks for the server list exactly when some waiter of its
  // snapshot completed in time and is to be enriched.
  lemma TickAsksWhenNeeded(s: State, g: nat, queue: seq<QueueStatus>)
    requires |s.callers| == |s.t.cells| && Enabled(s, QueueAnswers(g, queue))
    requires Known(s.t, s.runners[g].pc.snap)
    ensures Next(s, QueueAnswers(g, queue)).runners[g].pc.Enriching? <==>
            exists w :: w in s.runners[g].pc.snap && AsksForServers(s.t.cells[w].cmd, s.clock, queue)
  {
    hide AsksForServers;
    var snap := s.runners[g].pc.snap;
    if AsksServers(s.t, snap, s.clock, queue) {
      var i :| 0 <= i < |snap| && AsksForServers(SnapCmds(s.t, snap)[i], s.clock, queue);
      assert snap[i] in snap;
    }
    forall w | w in snap && AsksForServers(s.t.cells[w].cmd, s.clock, queue)
      ensures AsksServers(s.t, snap, s.clock, queue)
    {
      var i :| 0 <= i < |snap| && snap[i] == w;
      assert AsksForServers(SnapCmds(s.t, snap)[i], s.clock, queue);
    }
  }

  // A delivery gives every waiter of its snapshot that still owns its entry whatever is
  // justified for it, and leaves it pending if nothing is.
  lemma JustifiedIsDelivered(s: State, g: nat, w: nat)
    requires |s.callers| == |s.t.cells| && TableOk(s.t)
    requires Enabled(s, Deliver(g)) && RunnerOk(s, s.runners[g])
    requires w < |s.t.cells| && w in s.runners[g].pc.snap && Holds(s.t, w)
    ensures
      var pc, n := s.runners[g].pc, Next(s, Deliver(g));
      && (forall r :: Justified(s.t.cells[w].cmd, pc.now, pc.queue, pc.servers, r) ==>
            !Holds(n.t, w) && n.t.cells[w].slot == Some(r))
      && (Holds(n.t, w) <==> forall r :: !Justified(s.t.cells[w].cmd, pc.now, pc.queue, pc.servers, r))
  {
    DeliveryOutcome(s, g, w);
    hide TableOk, RunnerOk, DeliverAll, Resolve, Decide, Justified;
    var pc := s.runners[g].pc;
    var d := Decide(s.t.cells[w].cmd, pc.now, pc.queue, pc.servers);
    forall r
      ensures d == Some(r) <==> Justified(s.t.cells[w].cmd, pc.now, pc.queue, pc.servers, r)
    {
      DecideIsJustified(s.t.cells[w].cmd, pc.now, pc.queue, pc.servers, r);
    }
    if d.Some? {
      assert Justified(s.t.cells[w].cmd, pc.now, pc.queue, pc.servers, d.value);
    }
  }

  // The step delivers to waiter w, from a tick whose clock reading and answers justify r.
  ghost predicate DeliversJustly(s: State, step: Step, w: nat, r: WaitResult)
    requires |s.callers| == |s.t.cells| && Enabled(s, step)
  {
    && step.Deliver? && w < |s.t.cells|
    && var pc := s.runners[step.g].pc;
    w in pc.snap && Justified(s.t.cells[w].cmd, pc.now, pc.queue, pc.servers, r)
  }

  ghost predicate DeliveredJustly(s: State, steps: seq<Step>, w: nat, r: WaitResult)
    requires |s.callers| == |s.t.cells| && Legal(s, steps)
    decreases |steps|
  {
    steps != [] && (DeliversJustly(s, steps[0], w, r) || DeliveredJustly(Next(s, steps[0]), steps[1..], w, r))
  }

  predicate Sent(s: State, w: nat, r: WaitResult) {
    w < |s.t.cells| && s.t.cells[w].sends == [r]
  }

  lemma SentStep(s: State, step: Step, w: nat, r: WaitResult)
    requires Inv(s) && Enabled(s, step) && !Sent(s, w, r) && Sent(Next(s, step), w, r)
    ensures DeliversJustly(s, step, w, r)
  {
    assert step.Deliver? ==> RunnerOk(s, s.runners[step.g]);
    hide TableOk, ChannelsOk, RunnersOk, RunnerOk, AsksServers, DeliverAll, Resolve, Decide, Justified;
    match step
    case Deliver(g) =>
      var pc := s.runners[g].pc;
      DeliveryOutcome(s, g, w);
      DecideIsJustified(s.t.cells[w].cmd, pc.now, pc.queue, pc.servers, r);
    case _ =>
  }

  // EVERY ANSWER IS JUSTIFIED. Whatever is sent to a waiter in a run was delivered by a tick
  // whose own clock reading and answers justify it: no success without a "complete" at the
  // end of that tick's queue answer, no timeout before the deadline, no failure without an
  // "error" or a "cancelled".
  lemma {:induction false} AnswersAreJustified(s: State, steps: seq<Step>, w: nat, r: WaitResult)
    requires Inv(s) && Legal(s, steps) && !Sent(s, w, r) && Sent(Exec(s, steps), w, r)
    ensures DeliveredJustly(s, steps, w, r)
    decreases |steps|
  {
    var n := Next(s, steps[0]);
    StepKeeps(s, steps[0]);
    if Sent(n, w, r) {
      SentStep(s, steps[0], w, r);
    } else {
      AnswersAreJustified(n, steps[1..], w, r);
    }
  }

  // What a caller received in a run from the start is such an answer.
  lemma ReceivedIsJustified(s0: State, steps: seq<Step>, w: nat)
    requires Init(s0) && Legal(s0, steps)
    requires w < |Exec(s0, steps).callers| && Exec(s0, steps).callers[w].GotResult?
    ensures DeliveredJustly(s0, steps, w, Exec(s0, steps).callers[w].result)
  {
    InitOk(s0);
    ChannelsAreSafe(s0, steps);
    AnswersAreJustified(s0, steps, w, Exec(s0, steps).callers[w].result);
  }
}
