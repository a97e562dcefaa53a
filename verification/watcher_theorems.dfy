/** What every run of the watcher guarantees to its callers. */
module WatcherTheorems {
  import opened Common
  import opened WatcherTick
  import opened WatcherTable
  import opened WatcherRuns

  // ---- Fates ----

  predicate Answered(s: State, w: nat)
    requires w < |s.t.cells|
  {
    |s.t.cells[w].sends| == 1 && s.t.cells[w].closed && s.t.cells[w].removedBy.None?
  }

  predicate RemovedBy(s: State, w: nat, v: nat)
    requires w < |s.t.cells|
  {
    s.t.cells[w].removedBy == Some(v) && s.t.cells[w].sends == [] && !s.t.cells[w].closed
  }

  // No waiter's entry was ever deleted by another waiter's cancel.
  predicate NoTheft(s: State) {
    forall w :: 0 <= w < |s.t.cells| ==> s.t.cells[w].removedBy.None? || s.t.cells[w].removedBy == Some(w)
  }

  // Nobody who has not returned yet shares its id with the pending waiter of that id.
  predicate Unexposed(s: State)
    requires |s.callers| == |s.t.cells|
  {
    forall w: nat :: w < |s.callers| ==> UnexposedAt(s, w)
  }

  predicate UnexposedAt(s: State, w: nat)
    requires |s.callers| == |s.t.cells| && w < |s.callers|
  {
    !Returned(s.callers[w]) && s.t.cells[w].cmd.commandID in s.t.pending ==> Holds(s.t, w)
  }

  // The caller's side of the contract: an id is registered again only after every earlier
  // waiter of that id has returned. (A registration that is turned away changes nothing.)
  predicate FreshId(s: State, step: Step)
    requires |s.callers| == |s.t.cells|
  {
    step.Register? && !Rejected(s.t, step.cmd) ==>
      forall w :: 0 <= w < |s.callers| && s.t.cells[w].cmd.commandID == step.cmd.commandID ==> Returned(s.callers[w])
  }

  ghost predicate FreshIds(s: State, steps: seq<Step>)
    requires |s.callers| == |s.t.cells| && Legal(s, steps)
    decreases |steps|
  {
    steps == [] || (FreshId(s, steps[0]) && FreshIds(Next(s, steps[0]), steps[1..]))
  }

  // One of three, whoever deleted the entry: pending, answered once, or removed once.
  lemma FateInEveryState(s: State, w: nat)
    requires Inv(s) && w < |s.t.cells|
    ensures Holds(s.t, w) ==> !Answered(s, w) && s.t.cells[w].removedBy.None?
    ensures !Holds(s.t, w) ==> (Answered(s, w) <==> s.t.cells[w].removedBy.None?)
    ensures !Holds(s.t, w) && !Answered(s, w) ==> RemovedBy(s, w, s.t.cells[w].removedBy.value)
  {
    if !Holds(s.t, w) {
      assert Resolved(s.t.cells[w]) || Removed(s.t.cells[w]);
    }
  }

  lemma UnexposedStepFor(s: State, step: Step, w: nat)
    requires |s.callers| == |s.t.cells| && Enabled(s, step) && FreshId(s, step)
    requires w < |s.callers| ==> UnexposedAt(s, w)
    requires w < |Next(s, step).callers|
    ensures UnexposedAt(Next(s, step), w)
  {
    match step
    case Deliver(g) =>
      DeliverAllEntries(s.t, Batch(s.t, s.runners[g].pc));
      DeliverKeepsCommands(s.t, Batch(s.t, s.runners[g].pc), w);
    case _ =>
  }

  lemma NoTheftStepFor(s: State, step: Step, w: nat)
    requires |s.callers| == |s.t.cells| && TableOk(s.t) && Enabled(s, step)
    requires step.Cancel? ==> UnexposedAt(s, step.w)
    requires step.Deliver? ==> RunnerOk(s, s.runners[step.g])
    requires w < |s.t.cells| && (s.t.cells[w].removedBy.None? || s.t.cells[w].removedBy == Some(w))
    ensures Next(s, step).t.cells[w].removedBy.None? || Next(s, step).t.cells[w].removedBy == Some(w)
  {
    match step
    case Deliver(g) => DeliveryOutcome(s, g, w);
    case _ =>
  }

  lemma UnexposedStep(s: State, step: Step)
    requires Inv(s) && Enabled(s, step) && Unexposed(s) && NoTheft(s) && FreshId(s, step)
    ensures Unexposed(Next(s, step)) && NoTheft(Next(s, step))
  {
    var n := Next(s, step);
    forall w: nat | w < |n.callers|
      ensures UnexposedAt(n, w)
      ensures n.t.cells[w].removedBy.None? || n.t.cells[w].removedBy == Some(w)
    {
      UnexposedStepFor(s, step, w);
      if w < |s.callers| {
        NoTheftStepFor(s, step, w);
      }
    }
  }

  // Delivery never re-points an entry.
  lemma {:induction false} DeliverAllEntries(t: Table, done: seq<Completion<nat>>)
    ensures forall id :: id in DeliverAll(t, done).pending ==>
              id in t.pending && DeliverAll(t, done).pending[id] == t.pending[id]
  {
    if done != [] {
      DeliverAllEntries(t, done[..|done| - 1]);
    }
  }

  lemma {:induction false} UnexposedRun(s: State, steps: seq<Step>)
    requires Inv(s) && Unexposed(s) && NoTheft(s) && Legal(s, steps) && FreshIds(s, steps)
    ensures Unexposed(Exec(s, steps)) && NoTheft(Exec(s, steps)) && Inv(Exec(s, steps))
    decreases |steps|
  {
    if steps != [] {
      UnexposedStep(s, steps[0]);
      StepKeeps(s, steps[0]);
      UnexposedRun(Next(s, steps[0]), steps[1..]);
    }
  }

  // EXACTLY ONE FATE. In every run from the start in which no id is registered again before
  // its earlier waiter returned, every accepted waiter is pending, or answered by exactly one
  // delivered result, or removed by its own cancel call: never two of these, never none.
  lemma ExactlyOneFate(s0: State, steps: seq<Step>, w: nat)
    requires Init(s0) && Legal(s0, steps) && FreshIds(s0, steps)
    requires w < |Exec(s0, steps).t.cells|
    ensures
      var s := Exec(s0, steps);
      if Holds(s.t, w) then !Answered(s, w) && !RemovedBy(s, w, w)
      else (Answered(s, w) <==> !RemovedBy(s, w, w))
  {
    InitOk(s0);
    UnexposedRun(s0, steps);
    FateInEveryState(Exec(s0, steps), w);
  }

  // NOBODY IS LEFT BEHIND. A caller still in its select either has its answer waiting in the
  // slot, or is pending and exactly one live runner exists to serve it.
  lemma NobodyLeftBehind(s0: State, steps: seq<Step>, w: nat)
    requires Init(s0) && Legal(s0, steps) && FreshIds(s0, steps)
    requires w < |Exec(s0, steps).callers| && Exec(s0, steps).callers[w].InSelect?
    ensures
      var s := Exec(s0, steps);
      || (Answered(s, w) && s.t.cells[w].slot == Some(s.t.cells[w].sends[0]))
      || (Holds(s.t, w) && s.t.running && OneLiveRunner(s))
  {
    InitOk(s0);
    UnexposedRun(s0, steps);
    OwnRemovalMeansReturned(s0, steps, w);
    var s := Exec(s0, steps);
    FateInEveryState(s, w);
    assert ChannelOk(s.callers[w], s.t.cells[w], Holds(s.t, w));
    if Holds(s.t, w) {
      SingleRunner(s);
    }
  }

  // A waiter removed by its own cancel has returned with the ctx error.
  predicate RemovedReturned(s: State)
    requires |s.callers| == |s.t.cells|
  {
    forall w: nat :: w < |s.callers| && s.t.cells[w].removedBy == Some(w) ==> s.callers[w].GotCtxErr?
  }

  lemma RemovedReturnedStep(s: State, step: Step)
    requires Inv(s) && Enabled(s, step) && RemovedReturned(s)
    ensures RemovedReturned(Next(s, step))
  {
    assert step.Deliver? ==> RunnerOk(s, s.runners[step.g]);
    hide TableOk, ChannelsOk, RunnersOk, RunnerOk, AsksServers, DeliverAll, Resolve, SnapCmds;
    var n := Next(s, step);
    match step
    case Deliver(g) =>
      forall w: nat | w < |s.t.cells| {
        DeliveryOutcome(s, g, w);
      }
    case _ =>
  }

  lemma {:induction false} RemovedReturnedRun(s: State, steps: seq<Step>)
    requires Inv(s) && RemovedReturned(s) && Legal(s, steps)
    ensures RemovedReturned(Exec(s, steps))
    decreases |steps|
  {
    if steps != [] {
      RemovedReturnedStep(s, steps[0]);
      StepKeeps(s, steps[0]);
      RemovedReturnedRun(Next(s, steps[0]), steps[1..]);
    }
  }

  lemma OwnRemovalMeansReturned(s0: State, steps: seq<Step>, w: nat)
    requires Init(s0) && Legal(s0, steps) && w < |Exec(s0, steps).callers|
    ensures RemovedBy(Exec(s0, steps), w, w) ==> Exec(s0, steps).callers[w].GotCtxErr?
  {
    InitOk(s0);
    RemovedReturnedRun(s0, steps);
  }

  // ---- One watcher ----

  predicate LiveAt(s: State, g: nat) {
    g < |s.runners| && !s.runners[g].pc.Exited?
  }

  ghost predicate OneLiveRunner(s: State) {
    exists g: nat :: LiveAt(s, g) && forall h: nat :: LiveAt(s, h) ==> h == g
  }

  // NO LOST WAKE-UP. In every reachable state the running flag is up exactly when one run
  // goroutine has not taken its exit branch, and a pending waiter implies the flag.
  lemma SingleRunner(s: State)
    requires Inv(s)
    ensures s.t.running <==> OneLiveRunner(s)
    ensures !s.t.running ==> forall g: nat :: !LiveAt(s, g)
    ensures s.t.pending != map[] ==> OneLiveRunner(s)
  {
    if s.t.running {
      assert LiveAt(s, |s.runners| - 1);
    }
  }

  lemma NoLostWakeUp(s0: State, steps: seq<Step>)
    requires Init(s0) && Legal(s0, steps)
    ensures
      var s := Exec(s0, steps);
      (s.t.running <==> OneLiveRunner(s)) && (s.t.pending != map[] ==> s.t.running)
  {
    InitOk(s0);
    RunKeeps(s0, steps);
    SingleRunner(Exec(s0, steps));
  }

  // ---- Channels ----

  // In every reachable state the next delivery only sends to empty, open channels, and what
  // any caller has received is the one result that was sent to it.
  lemma ChannelsAreSafe(s0: State, steps: seq<Step>)
    requires Init(s0) && Legal(s0, steps)
    ensures
      var s := Exec(s0, steps);
      && (forall g: nat :: g < |s.runners| && s.runners[g].pc.Delivering? ==>
            SafeSends(s.t, Batch(s.t, s.runners[g].pc)))
      && (forall w: nat :: Holds(s.t, w) ==> s.t.cells[w].slot.None? && !s.t.cells[w].closed)
      && (forall w: nat :: w < |s.callers| && s.callers[w].GotResult? ==>
            s.t.cells[w].sends == [s.callers[w].result])
  {
    InitOk(s0);
    RunKeeps(s0, steps);
    var s := Exec(s0, steps);
    forall g: nat | g < |s.runners| && s.runners[g].pc.Delivering?
      ensures SafeSends(s.t, Batch(s.t, s.runners[g].pc))
    {
      DeliveryIsSafe(s.t, Batch(s.t, s.runners[g].pc));
    }
    forall w: nat | w < |s.callers| && s.callers[w].GotResult?
      ensures s.t.cells[w].sends == [s.callers[w].result]
    {
      assert ChannelOk(s.callers[w], s.t.cells[w], Holds(s.t, w));
    }
  }

  // ---- When exactly the single fate can be lost ----

  lemma Prepend(s: State, step: Step, rest: seq<Step>) returns (steps: seq<Step>)
    requires |s.callers| == |s.t.cells| && Enabled(s, step) && Legal(Next(s, step), rest)
    ensures steps == [step] + rest && Legal(s, steps) && Exec(s, steps) == Exec(Next(s, step), rest)
    ensures FreshId(s, step) && FreshIds(Next(s, step), rest) ==> FreshIds(s, steps)
  {
    steps := [step] + rest;
    assert steps[1..] == rest;
  }

  // A waiter that shares its id with somebody who has not returned can have its entry
  // deleted by that other caller's cancel, in two steps.
  lemma ExposedCanBeStolen(s: State, w: nat) returns (steps: seq<Step>)
    requires Inv(s) && NoTheft(s) && w < |s.callers| && !UnexposedAt(s, w)
    ensures Legal(s, steps) && FreshIds(s, steps) && !NoTheft(Exec(s, steps))
  {
    var v := s.t.pending[s.t.cells[w].cmd.commandID];
    steps := [];
    if s.callers[w].InSelect? {
      var mid := Next(s, TakeCtx(w));
      assert Next(mid, Cancel(w)).t.cells[v].removedBy == Some(w);
      steps := Prepend(mid, Cancel(w), steps);
      steps := Prepend(s, TakeCtx(w), steps);
    } else {
      assert Next(s, Cancel(w)).t.cells[v].removedBy == Some(w);
      steps := Prepend(s, Cancel(w), steps);
    }
  }

  // THE EXACT CONDITION. From a state where nothing was stolen yet, every continuation with
  // fresh ids keeps it so if and only if no unreturned caller shares a pending waiter's id.
  lemma ExposureIsExact(s: State)
    requires Inv(s) && NoTheft(s)
    ensures Unexposed(s) <==>
            forall steps :: Legal(s, steps) && FreshIds(s, steps) ==> NoTheft(Exec(s, steps))
  {
    if Unexposed(s) {
      forall steps | Legal(s, steps) && FreshIds(s, steps)
        ensures NoTheft(Exec(s, steps))
      {
        UnexposedRun(s, steps);
      }
    } else {
      var w: nat :| w < |s.callers| && !UnexposedAt(s, w);
      var steps := ExposedCanBeStolen(s, w);
    }
  }

  // The same before a registration: from a state where nobody shares an id and nothing was
  // stolen, an accepted registration keeps every continuation with fresh ids free of thefts
  // if and only if every earlier waiter of its id has returned.
  lemma RegisterIsExact(s: State, cmd: Cmd)
    requires Inv(s) && NoTheft(s) && Unexposed(s) && !Rejected(s.t, cmd)
    ensures
      var n := Next(s, Register(cmd));
      FreshId(s, Register(cmd)) <==>
      forall steps :: Legal(n, steps) && FreshIds(n, steps) ==> NoTheft(Exec(n, steps))
  {
    var n := Next(s, Register(cmd));
    StepKeeps(s, Register(cmd));
    assert NoTheft(n);
    if FreshId(s, Register(cmd)) {
      UnexposedStep(s, Register(cmd));
    } else {
      var w: nat :| w < |s.callers| && s.t.cells[w].cmd.commandID == cmd.commandID && !Returned(s.callers[w]);
      assert !UnexposedAt(n, w);
    }
    ExposureIsExact(n);
  }

  // The end of the bad run below: the answered waiter 0 has not returned, `cmd` has its id.
  lemma StealFromAnswered(s: State, cmd: Cmd) returns (steps: seq<Step>)
    requires |s.callers| == |s.t.cells| == 1 && s.callers[0].InSelect?
    requires s.t.cells[0].cmd.commandID == cmd.commandID && !Rejected(s.t, cmd)
    ensures Legal(s, steps)
    ensures
      var n := Exec(s, steps);
      |n.callers| == 2 && n.callers[1].InSelect? && !Holds(n.t, 1) && RemovedBy(n, 1, 0)
  {
    var s1 := Next(s, Register(cmd));
    var s2 := Next(s1, TakeCtx(0));
    steps := [];
    steps := Prepend(s2, Cancel(0), steps);
    steps := Prepend(s1, TakeCtx(0), steps);
    steps := Prepend(s, Register(cmd), steps);
  }

  // The delivery answers the overdue waiter 0 and frees its id.
  lemma TimeoutFreesId(s: State, cmd: Cmd)
    requires |s.callers| == |s.t.cells| == 1 && TableOk(s.t) && Holds(s.t, 0) && s.t.cells[0].cmd == cmd
    requires |s.runners| == 1 && RunnerOk(s, s.runners[0]) && s.runners[0].pc.Delivering? && s.runners[0].pc.snap == [0]
    requires s.runners[0].pc.queue.None? && s.runners[0].pc.now > cmd.deadline
    ensures cmd.commandID !in Next(s, Deliver(0)).t.pending
    ensures |Next(s, Deliver(0)).t.cells| == 1 && Next(s, Deliver(0)).t.cells[0].cmd == cmd
  {
    assert 0 in s.runners[0].pc.snap;
    DeliveryOutcome(s, 0, 0);
    DeliverAllKeeps(s.t, Batch(s.t, s.runners[0].pc));
    hide DeliverAll, Resolve, SnapCmds;
  }

  // Before that: a tick whose queue list fails answers the overdue waiter 0.
  lemma AnswerThenSteal(s: State, cmd: Cmd, again: Cmd) returns (steps: seq<Step>)
    requires Inv(s) && s.callers == [InSelect] && s.t.cells[0].cmd == cmd && Holds(s.t, 0)
    requires |s.runners| == 1 && s.runners[0].pc.Ticking? && cmd.deadline < s.clock
    requires again.commandID == cmd.commandID
    ensures Legal(s, steps)
    ensures
      var n := Exec(s, steps);
      |n.callers| == 2 && n.callers[1].InSelect? && !Holds(n.t, 1) && RemovedBy(n, 1, 0)
  {
    var snap: seq<nat> := [0];
    assert cmd.commandID != "" && 0 in snap;
    var s1 := Next(s, Snapshot(0, snap));
    var s2 := Next(s1, QueueFails(0));
    TimeoutFreesId(s2, cmd);
    hide TableOk, RunnerOk, DeliverAll, Resolve, SnapCmds;
    var s3 := Next(s2, Deliver(0));
    steps := StealFromAnswered(s3, again);
    steps := Prepend(s2, Deliver(0), steps);
    steps := Prepend(s1, QueueFails(0), steps);
    steps := Prepend(s, Snapshot(0, snap), steps);
  }

  // A whole bad run: a waiter times out, a second one registers under the same id before the
  // first has returned, the first then leaves by its ctx branch, and the second is left in
  // its select with no entry, no answer and no cancel of its own.
  lemma ReuseLosesAWaiter(s0: State, cmd: Cmd, again: Cmd) returns (steps: seq<Step>)
    requires Init(s0) && cmd.commandID != "" && again.commandID == cmd.commandID
    ensures Legal(s0, steps)
    ensures
      var s := Exec(s0, steps);
      |s.callers| == 2 && s.callers[1].InSelect? && !Holds(s.t, 1) && !Answered(s, 1) && RemovedBy(s, 1, 0)
  {
    var pause := Advance(Max(0, cmd.deadline + 1 - s0.clock));
    InitOk(s0);
    StepKeeps(s0, Register(cmd));
    var s1 := Next(s0, Register(cmd));
    StepKeeps(s1, Begin(0));
    var s2 := Next(s1, Begin(0));
    StepKeeps(s2, pause);
    steps := AnswerThenSteal(Next(s2, pause), cmd, again);
    steps := Prepend(s2, pause, steps);
    steps := Prepend(s1, Begin(0), steps);
    steps := Prepend(s0, Register(cmd), steps);
  }
}
