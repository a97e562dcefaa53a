/** How long a watcher runs, and that a pending waiter can always still be served. */
module WatcherProgress {
  import opened Common
  import opened WatcherTick
  import opened WatcherTable
  import opened WatcherRuns
  import opened WatcherTheorems

  // ---- How long a watcher can run ----

  predicate NoRegister(steps: seq<Step>) {
    forall i :: 0 <= i < |steps| ==> !steps[i].Register?
  }

  // The first tick of a runner whose snapshot is still to come.
  function FirstFullTick(r: Runner): nat {
    if r.pc.Spawned? || r.pc.Ticking? then r.ticks else r.ticks + 1
  }

  // Nobody pending is due after `last`, and from tick `full` on the tick runner g is in has
  // everybody pending in its snapshot.
  ghost predicate Draining(s: State, g: nat, full: nat, last: int) {
    && g < |s.runners| && (forall h: nat :: LiveAt(s, h) ==> h == g)
    && (forall w: nat :: Holds(s.t, w) ==> s.t.cells[w].cmd.deadline <= last)
    && DrainingRunner(s.t, s.runners[g], s.interval, full, last)
  }

  ghost predicate DrainingRunner(t: Table, r: Runner, interval: int, full: nat, last: int) {
    && (r.ticks > full ==> r.start + (r.ticks - 1) * interval <= last)
    && (r.pc.Spawned? ==> full == 0)
    && (r.ticks >= full ==>
          match r.pc
          case Polling(snap) => Covers(snap, t)
          case Enriching(snap, _, _) => Covers(snap, t)
          case Delivering(snap, _, _, _) => Covers(snap, t)
          case Checking(snap, _) => Covers(snap, t)
          case Sleeping(snap, _) => r.start + r.ticks * interval <= last
          case _ => true)
  }

  ghost predicate Covers(snap: seq<nat>, t: Table) {
    forall w: nat :: Holds(t, w) ==> w in snap
  }

  // The runner's side of one step. `n.t` only holds waiters that `s.t` held.
  lemma DrainingRunnerStep(s: State, step: Step, g: nat, full: nat, last: int)
    requires |s.callers| == |s.t.cells| && TableOk(s.t) && Enabled(s, step) && !step.Register?
    requires Draining(s, g, full, last) && RunnerOk(s, s.runners[g])
    requires forall w: nat :: Holds(Next(s, step).t, w) ==> Holds(s.t, w)
    ensures g < |Next(s, step).runners|
    ensures DrainingRunner(Next(s, step).t, Next(s, step).runners[g], s.interval, full, last)
  {
    var r, n := s.runners[g], Next(s, step);
    match step
    case ExitCheck(h) =>
      if h == g && s.t.pending != map[] {
        var id :| id in s.t.pending;
        assert Holds(s.t, s.t.pending[id]);
      }
    case TickerFires(h) =>
      if h == g {
        assert n.runners[g].ticks - 1 == r.ticks;
      }
    case _ =>
  }

  lemma DrainingStep(s: State, step: Step, g: nat, full: nat, last: int)
    requires Inv(s) && Enabled(s, step) && !step.Register? && Draining(s, g, full, last)
    ensures Draining(Next(s, step), g, full, last)
  {
    hide ChannelsOk, DrainingRunner;
    var n := Next(s, step);
    assert RunnerOk(s, s.runners[g]);
    assert step.Deliver? ==> RunnerOk(s, s.runners[step.g]);
    StepExtends(s, step);
    StepKeepsSize(s, step);
    DrainingRunnerStep(s, step, g, full, last);
    assert forall h: nat :: LiveAt(n, h) ==> LiveAt(s, h);
    forall w: nat | Holds(n.t, w)
      ensures n.t.cells[w].cmd.deadline <= last
    {
      assert Holds(s.t, w);
    }
  }

  lemma StepKeepsSize(s: State, step: Step)
    requires |s.callers| == |s.t.cells| && Enabled(s, step) && !step.Register?
    ensures |Next(s, step).t.cells| == |s.t.cells| && Next(s, step).interval == s.interval
  { }

  lemma {:induction false} DrainingRun(s: State, steps: seq<Step>, g: nat, full: nat, last: int)
    requires Inv(s) && Legal(s, steps) && NoRegister(steps) && Draining(s, g, full, last)
    ensures Draining(Exec(s, steps), g, full, last) && Inv(Exec(s, steps)) && Exec(s, steps).interval == s.interval
    decreases |steps|
  {
    if steps != [] {
      DrainingStep(s, steps[0], g, full, last);
      StepKeeps(s, steps[0]);
      StepKeepsSize(s, steps[0]);
      DrainingRun(Next(s, steps[0]), steps[1..], g, full, last);
    }
  }

  // A live runner, wherever it is in its tick.
  lemma LiveRunnerDrains(s: State, g: nat, last: int)
    requires Inv(s) && LiveAt(s, g)
    requires forall w: nat :: Holds(s.t, w) ==> s.t.cells[w].cmd.deadline <= last
    ensures Draining(s, g, FirstFullTick(s.runners[g]), last)
  {
    assert RunnerOk(s, s.runners[g]);
    assert forall h: nat :: LiveAt(s, h) ==> h == g;
  }

  // TERMINATION BOUND. From any reachable state with a live run goroutine g, with no
  // registration from then on and whatever the API answers, g begins at most
  // floor((last - start) / interval) + 2 ticks in all, where `last` bounds the pending
  // deadlines; or no tick after the first one whose snapshot is still to come, if that is
  // later. For a goroutine just started that first one is its first tick.
  lemma RunnerTerminates(s: State, steps: seq<Step>, g: nat, last: int)
    requires Inv(s) && Legal(s, steps) && NoRegister(steps) && LiveAt(s, g)
    requires forall w: nat :: Holds(s.t, w) ==> s.t.cells[w].cmd.deadline <= last
    ensures g < |Exec(s, steps).runners|
    ensures
      var r := Exec(s, steps).runners[g];
      r.ticks + 1 <= Max(FirstFullTick(s.runners[g]) + 1, (last - r.start) / s.interval + 2)
  {
    hide ChannelsOk, TableOk, RunnersOk, RunnerOk, Draining;
    LiveRunnerDrains(s, g, last);
    DrainingRun(s, steps, g, FirstFullTick(s.runners[g]), last);
    TicksWhileDraining(Exec(s, steps), g, FirstFullTick(s.runners[g]), last);
  }

  lemma TicksWhileDraining(n: State, g: nat, full: nat, last: int)
    requires Draining(n, g, full, last) && n.interval > 0
    ensures g < |n.runners|
    ensures n.runners[g].ticks + 1 <= Max(full + 1, (last - n.runners[g].start) / n.interval + 2)
  {
    var r := n.runners[g];
    if r.ticks > full {
      QuotientBound(r.ticks - 1, n.interval, last - r.start);
    }
  }

  lemma PendingHasHolder(t: Table)
    requires TableOk(t) && t.pending != map[]
    ensures exists w: nat :: Holds(t, w)
  { }

  // A tick whose snapshot was still to come, and that reads the clock after `last`, ends with
  // nobody pending, and the exit check that follows takes the exit branch.
  lemma LateTickExits(s: State, steps: seq<Step>, g: nat, last: int)
    requires Inv(s) && Legal(s, steps) && NoRegister(steps) && LiveAt(s, g)
    requires forall w: nat :: Holds(s.t, w) ==> s.t.cells[w].cmd.deadline <= last
    ensures
      var n := Exec(s, steps);
      g < |n.runners| &&
      (n.runners[g].pc.Checking? && n.runners[g].pc.now > last && n.runners[g].ticks >= FirstFullTick(s.runners[g]) ==>
         n.t.pending == map[] && Next(n, ExitCheck(g)).runners[g].pc.Exited?)
  {
    hide ChannelsOk, TableOk, RunnersOk, RunnerOk, DrainingRunner;
    LiveRunnerDrains(s, g, last);
    DrainingRun(s, steps, g, FirstFullTick(s.runners[g]), last);
    if Exec(s, steps).runners[g].ticks >= FirstFullTick(s.runners[g]) {
      LateCheckExits(Exec(s, steps), g, FirstFullTick(s.runners[g]), last);
    }
  }

  lemma LateCheckExits(n: State, g: nat, full: nat, last: int)
    requires Inv(n) && Draining(n, g, full, last)
    requires n.runners[g].ticks >= full
    ensures n.runners[g].pc.Checking? && n.runners[g].pc.now > last ==>
              n.t.pending == map[] && Next(n, ExitCheck(g)).runners[g].pc.Exited?
  {
    hide ChannelsOk, RunnersOk;
    assert RunnerOk(n, n.runners[g]);
    if n.runners[g].pc.Checking? && n.runners[g].pc.now > last && n.t.pending != map[] {
      PendingHasHolder(n.t);
    }
  }

  // A waiter in a tick's snapshot that is overdue at that tick's clock reading is not
  // pending after the tick, whatever the API answered and whatever ran in between.
  lemma OverdueIsGone(s0: State, steps: seq<Step>, g: nat, w: nat)
    requires Init(s0) && Legal(s0, steps) && g < |Exec(s0, steps).runners|
    ensures
      var s := Exec(s0, steps);
      var pc := s.runners[g].pc;
      ((pc.Checking? || pc.Sleeping?) && w in pc.snap && w < |s.t.cells|
       && pc.now > s.t.cells[w].cmd.deadline) ==> !Holds(s.t, w)
  {
    InitOk(s0);
    RunKeeps(s0, steps);
    assert RunnerOk(Exec(s0, steps), Exec(s0, steps).runners[g]);
  }

  // ---- An overdue waiter does not outlast the next full tick ----

  // If waiter w is still pending it is overdue, and tick `full` of runner g is not past the
  // delivery that answers it.
  ghost predicate Serving(s: State, g: nat, w: nat, full: nat) {
    && g < |s.runners| && w < |s.t.cells|
    && (Holds(s.t, w) ==>
          var r, due := s.runners[g], s.t.cells[w].cmd.deadline;
          && s.clock > due && r.ticks <= full && !r.pc.Exited? && (r.pc.Spawned? ==> full == 0)
          && (r.ticks == full ==>
                match r.pc
                case Polling(snap) => w in snap
                case Enriching(snap, now, _) => w in snap && now > due
                case Delivering(snap, now, _, _) => w in snap && now > due
                case Checking(_, _) => false
                case Sleeping(_, _) => false
                case _ => true))
  }

  // The runner's own step.
  lemma ServingMove(s: State, step: Step, g: nat, w: nat, full: nat)
    requires |s.callers| == |s.t.cells| && TableOk(s.t) && Enabled(s, step) && Serving(s, g, w, full)
    requires RunnerOk(s, s.runners[g]) && !step.Register? && Next(s, step).runners[g] != s.runners[g]
    ensures Serving(Next(s, step), g, w, full)
  {
    hide TableOk, RunnerOk, AsksServers, DeliverAll, Resolve, SnapCmds;
    match step
    case Deliver(h) => DeliveryOutcome(s, h, w);
    case ExitCheck(_) =>
      if Holds(s.t, w) {
        assert s.t.cells[w].cmd.commandID in s.t.pending;
      }
    case _ =>
  }

  lemma ServingStep(s: State, step: Step, g: nat, w: nat, full: nat)
    requires Inv(s) && Enabled(s, step) && Serving(s, g, w, full)
    ensures Serving(Next(s, step), g, w, full)
  {
    assert RunnerOk(s, s.runners[g]);
    assert step.Deliver? ==> RunnerOk(s, s.runners[step.g]);
    StepExtends(s, step);
    if !step.Register? && Next(s, step).runners[g] != s.runners[g] {
      ServingMove(s, step, g, w, full);
    }
  }

  lemma {:induction false} ServingRun(s: State, steps: seq<Step>, g: nat, w: nat, full: nat)
    requires Inv(s) && Legal(s, steps) && Serving(s, g, w, full)
    ensures Serving(Exec(s, steps), g, w, full)
    decreases |steps|
  {
    if steps != [] {
      ServingStep(s, steps[0], g, w, full);
      StepKeeps(s, steps[0]);
      ServingRun(Next(s, steps[0]), steps[1..], g, w, full);
    }
  }

  // EVERY OVERDUE WAITER IS SERVED BY THE NEXT FULL TICK. In every run from a reachable state,
  // registrations and cancellations included, a waiter whose deadline has passed is no longer
  // pending once the live runner is through the first tick whose snapshot was still to come.
  lemma NextFullTickServes(s: State, steps: seq<Step>, g: nat, w: nat)
    requires Inv(s) && Legal(s, steps) && LiveAt(s, g) && Holds(s.t, w)
    requires s.clock > s.t.cells[w].cmd.deadline
    ensures g < |Exec(s, steps).runners|
    ensures
      var n, full := Exec(s, steps), FirstFullTick(s.runners[g]);
      var r := n.runners[g];
      r.ticks > full || r.pc.Exited? || (r.ticks == full && (r.pc.Checking? || r.pc.Sleeping?)) ==> !Holds(n.t, w)
  {
    assert RunnerOk(s, s.runners[g]);
    ServingRun(s, steps, g, w, FirstFullTick(s.runners[g]));
  }

  // ---- A pending waiter can always still be served ----

  predicate WatcherOnly(steps: seq<Step>) {
    forall i :: 0 <= i < |steps| ==> !(steps[i].Register? || steps[i].TakeCtx? || steps[i].Cancel? || steps[i].Receive?)
  }

  function StepsLeft(pc: PC): nat {
    match pc
    case Ticking => 0
    case Spawned => 1
    case Sleeping(_, _) => 1
    case Checking(_, _) => 2
    case Delivering(_, _, _, _) => 3
    case Enriching(_, _, _) => 4
    case Polling(_) => 4
    case Exited => 5
  }

  lemma {:induction false} SnapshotBelow(t: Table, k: nat) returns (snap: seq<nat>)
    requires k <= |t.cells|
    ensures forall w: nat :: w in snap <==> w < k && Holds(t, w)
    ensures forall i, j :: 0 <= i < j < |snap| ==> snap[i] != snap[j]
  {
    if k == 0 {
      snap := [];
    } else {
      snap := SnapshotBelow(t, k - 1);
      if Holds(t, k - 1) {
        snap := snap + [k - 1];
      }
    }
  }

  // The queue list fails while an overdue waiter is in the snapshot: it is answered.
  lemma FailedPoll(s: State, g: nat, w: nat) returns (steps: seq<Step>)
    requires |s.callers| == |s.t.cells| && TableOk(s.t) && Holds(s.t, w)
    requires g < |s.runners| && RunnerOk(s, s.runners[g]) && s.runners[g].pc.Polling?
    requires w in s.runners[g].pc.snap && s.clock > s.t.cells[w].cmd.deadline
    ensures Legal(s, steps) && WatcherOnly(steps) && |Exec(s, steps).t.cells| == |s.t.cells|
    ensures Answered(Exec(s, steps), w)
  {
    assert Untouched(s.t.cells[w]);
    var s1 := Next(s, QueueFails(g));
    assert RunnerOk(s1, s1.runners[g]);
    hide TableOk, RunnerOk, DeliverAll, Resolve, SnapCmds;
    DeliveryOutcome(s1, g, w);
    steps := [];
    steps := Prepend(s1, Deliver(g), steps);
    steps := Prepend(s, QueueFails(g), steps);
  }

  lemma FailedTick(s: State, g: nat, w: nat) returns (steps: seq<Step>)
    requires Inv(s) && LiveAt(s, g) && s.runners[g].pc.Ticking? && Holds(s.t, w)
    requires s.clock > s.t.cells[w].cmd.deadline
    ensures Legal(s, steps) && WatcherOnly(steps) && |Exec(s, steps).t.cells| == |s.t.cells|
    ensures Answered(Exec(s, steps), w)
  {
    hide ChannelsOk, RunnersOk, TableOk;
    var snap := SnapshotBelow(s.t, |s.t.cells|);
    assert w in snap && IsSnapshot(s.t, snap);
    StepKeeps(s, Snapshot(g, snap));
    steps := FailedPoll(Next(s, Snapshot(g, snap)), g, w);
    steps := Prepend(s, Snapshot(g, snap), steps);
  }

  lemma ServeFromTick(s: State, g: nat, w: nat) returns (steps: seq<Step>)
    requires Inv(s) && LiveAt(s, g) && s.runners[g].pc.Ticking? && Holds(s.t, w)
    ensures Legal(s, steps) && WatcherOnly(steps) && |Exec(s, steps).t.cells| == |s.t.cells|
    ensures Answered(Exec(s, steps), w)
  {
    hide ChannelsOk, RunnersOk, TableOk;
    var late := Max(0, s.t.cells[w].cmd.deadline + 1 - s.clock);
    StepKeeps(s, Advance(late));
    steps := FailedTick(Next(s, Advance(late)), g, w);
    steps := Prepend(s, Advance(late), steps);
  }

  // A PENDING WAITER CAN STILL BE SERVED. In every reachable state, also one reached by a register
  // that raced the exit check, a pending waiter is answered by some continuation in which
  // only the live watcher moves and time passes.
  lemma {:induction false} PendingCanBeServed(s: State, g: nat, w: nat) returns (steps: seq<Step>)
    requires Inv(s) && LiveAt(s, g) && Holds(s.t, w)
    ensures Legal(s, steps) && WatcherOnly(steps) && |Exec(s, steps).t.cells| == |s.t.cells|
    ensures Answered(Exec(s, steps), w)
    decreases StepsLeft(s.runners[g].pc)
  {
    hide ChannelsOk, RunnersOk, TableOk;
    if s.runners[g].pc.Ticking? {
      steps := ServeFromTick(s, g, w);
    } else {
      var wait, move := NextMove(s, g);
      var s1 := Next(s, Advance(wait));
      StepKeeps(s, Advance(wait));
      StepKeeps(s1, move);
      FateOfMove(s1, move, w);
      var s2 := Next(s1, move);
      if Answered(s2, w) {
        steps := [];
      } else {
        steps := PendingCanBeServed(s2, g, w);
      }
      steps := Prepend(s1, move, steps);
      steps := Prepend(s, Advance(wait), steps);
    }
  }

  // The live runner can always move, after some time at most, and comes closer to a tick.
  lemma NextMove(s: State, g: nat) returns (wait: nat, move: Step)
    requires Inv(s) && LiveAt(s, g) && !s.runners[g].pc.Ticking? && s.t.pending != map[]
    ensures
      var s1 := Next(s, Advance(wait));
      && Enabled(s1, move) && WatcherOnly([move]) && LiveAt(Next(s1, move), g)
      && StepsLeft(Next(s1, move).runners[g].pc) < StepsLeft(s.runners[g].pc)
  {
    hide ChannelsOk, RunnersOk, TableOk, AsksServers, DeliverAll;
    var r := s.runners[g];
    wait := Max(0, r.start + (r.ticks + 1) * s.interval - s.clock);
    move := match r.pc
      case Spawned => Begin(g)
      case Polling(_) => QueueFails(g)
      case Enriching(_, _, _) => ServersFail(g)
      case Delivering(_, _, _, _) => Deliver(g)
      case Checking(_, _) => ExitCheck(g)
      case _ => TickerFires(g);
  }

  // One move of the watcher answers a pending waiter or leaves it pending.
  lemma FateOfMove(s: State, move: Step, w: nat)
    requires Inv(s) && Enabled(s, move) && WatcherOnly([move]) && Holds(s.t, w)
    ensures |Next(s, move).t.cells| == |s.t.cells|
    ensures Answered(Next(s, move), w) || Holds(Next(s, move).t, w)
  {
    assert !([move][0]).Register? && !([move][0]).Cancel?;
    match move
    case Deliver(g) =>
      assert RunnerOk(s, s.runners[g]);
      DeliveryOutcome(s, g, w);
    case ExitCheck(_) => StopKeeps(s.t, false);
    case _ =>
  }
}
