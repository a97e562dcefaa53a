/** Every interleaving of registrations, cancellations, ticks and receives. A step is one
    critical section or one lock-free action; a run is a list of steps. */
module WatcherRuns {
  import opened Common
  import opened KamateraTypes
  import opened WatcherTick
  import opened WatcherTable

  // Where a caller of register is: in its select, past the ctx branch but not yet inside
  // cancel's lock, or returned.
  datatype Caller = InSelect | TookCtx | GotResult(result: WaitResult) | GotCtxErr

  // Where a run goroutine is. `snap`, `now` and the two answers stay fixed through a tick.
  datatype PC =
    | Spawned
    | Ticking
    | Polling(snap: seq<nat>)
    | Enriching(snap: seq<nat>, now: int, answer: seq<QueueStatus>)
    | Delivering(snap: seq<nat>, now: int, queue: Option<seq<QueueStatus>>, servers: Option<seq<Server>>)
    | Checking(snap: seq<nat>, now: int)
    | Sleeping(snap: seq<nat>, now: int)
    | Exited

  // `start` is when the ticker was made and `ticks` how often it has fired for this runner.
  datatype Runner = Runner(start: int, ticks: nat, pc: PC)

  datatype State = State(t: Table, callers: seq<Caller>, runners: seq<Runner>, clock: int, interval: int)

  datatype Step =
    | Register(cmd: Cmd)
    | TakeCtx(w: nat)
    | Cancel(w: nat)
    | Receive(w: nat)
    | Advance(elapsed: nat)
    | Begin(g: nat)
    | Snapshot(g: nat, snap: seq<nat>)
    | QueueFails(g: nat)
    | QueueAnswers(g: nat, queue: seq<QueueStatus>)
    | ServersFail(g: nat)
    | ServersAnswer(g: nat, servers: seq<Server>)
    | Deliver(g: nat)
    | ExitCheck(g: nat)
    | TickerFires(g: nat)

  predicate Init(s: State) {
    s.t == Table([], map[], false) && s.callers == [] && s.runners == [] && s.interval > 0
  }

  predicate Returned(c: Caller) {
    c.GotResult? || c.GotCtxErr?
  }

  function SnapCmds(t: Table, snap: seq<nat>): (cs: seq<Cmd>)
    ensures |cs| == |snap|
    ensures forall i :: 0 <= i < |snap| && snap[i] < |t.cells| ==> cs[i] == t.cells[snap[i]].cmd
  {
    seq(|snap|, i requires 0 <= i < |snap| => if snap[i] < |t.cells| then t.cells[snap[i]].cmd else Cmd("", "", 0))
  }

  predicate AsksServers(t: Table, snap: seq<nat>, now: int, queue: seq<QueueStatus>) {
    exists i :: 0 <= i < |snap| && AsksForServers(SnapCmds(t, snap)[i], now, queue)
  }

  ghost predicate IsSnapshot(t: Table, snap: seq<nat>) {
    && (forall w: nat :: w in snap <==> Holds(t, w))
    && (forall i, j :: 0 <= i < j < |snap| ==> snap[i] != snap[j])
  }

  ghost predicate Enabled(s: State, step: Step)
    requires |s.callers| == |s.t.cells|
  {
    match step
    case Register(_) => true
    case TakeCtx(w) => w < |s.callers| && s.callers[w].InSelect?
    case Cancel(w) => w < |s.callers| && s.callers[w].TookCtx?
    case Receive(w) => w < |s.callers| && s.callers[w].InSelect? && (s.t.cells[w].slot.Some? || s.t.cells[w].closed)
    case Advance(_) => true
    case Begin(g) => g < |s.runners| && s.runners[g].pc.Spawned?
    case Snapshot(g, snap) => g < |s.runners| && s.runners[g].pc.Ticking? && IsSnapshot(s.t, snap)
    case QueueFails(g) => g < |s.runners| && s.runners[g].pc.Polling?
    case QueueAnswers(g, _) => g < |s.runners| && s.runners[g].pc.Polling?
    case ServersFail(g) => g < |s.runners| && s.runners[g].pc.Enriching?
    case ServersAnswer(g, _) => g < |s.runners| && s.runners[g].pc.Enriching?
    case Deliver(g) => g < |s.runners| && s.runners[g].pc.Delivering?
    case ExitCheck(g) => g < |s.runners| && s.runners[g].pc.Checking?
    case TickerFires(g) =>
      g < |s.runners| && s.runners[g].pc.Sleeping?
      && s.clock >= s.runners[g].start + (s.runners[g].ticks + 1) * s.interval
  }

  function GoTo(s: State, g: nat, pc: PC): State
    requires g < |s.runners|
  {
    s.(runners := s.runners[g := s.runners[g].(pc := pc)])
  }

  ghost function Next(s: State, step: Step): (n: State)
    requires |s.callers| == |s.t.cells| && Enabled(s, step)
    ensures |n.callers| == |n.t.cells|
  {
    match step
    case Register(cmd) =>
      if Rejected(s.t, cmd) then s
      else s.(t := Accept(s.t, cmd), callers := s.callers + [InSelect],
              runners := if s.t.running then s.runners else s.runners + [Runner(s.clock, 0, Spawned)])
    case TakeCtx(w) => s.(callers := s.callers[w := TookCtx])
    case Cancel(w) => s.(t := CancelId(s.t, s.t.cells[w].cmd.commandID, w), callers := s.callers[w := GotCtxErr])
    case Receive(w) =>
      // A receive from a closed, drained channel would yield the zero result.
      var r := if s.t.cells[w].slot.Some? then s.t.cells[w].slot.value else WaitResult(ZERO_SERVER, None);
      s.(t := Take(s.t, w), callers := s.callers[w := GotResult(r)])
    case Advance(d) => s.(clock := s.clock + d)
    case Begin(g) => s.(runners := s.runners[g := Runner(s.clock, 0, Ticking)])
    case Snapshot(g, snap) => GoTo(s, g, if snap == [] then Checking([], s.clock) else Polling(snap))
    case QueueFails(g) => GoTo(s, g, Delivering(s.runners[g].pc.snap, s.clock, None, None))
    case QueueAnswers(g, queue) =>
      var snap := s.runners[g].pc.snap;
      GoTo(s, g, if AsksServers(s.t, snap, s.clock, queue) then Enriching(snap, s.clock, queue)
                 else Delivering(snap, s.clock, Some(queue), None))
    case ServersFail(g) =>
      var pc := s.runners[g].pc;
      GoTo(s, g, Delivering(pc.snap, pc.now, Some(pc.answer), None))
    case ServersAnswer(g, servers) =>
      var pc := s.runners[g].pc;
      GoTo(s, g, Delivering(pc.snap, pc.now, Some(pc.answer), Some(servers)))
    case Deliver(g) =>
      var pc := s.runners[g].pc;
      GoTo(s, g, Checking(pc.snap, pc.now)).(t := DeliverAll(s.t, Batch(s.t, pc)))
    case ExitCheck(g) =>
      var pc := s.runners[g].pc;
      if s.t.pending == map[] then GoTo(s, g, Exited).(t := s.t.(running := false))
      else GoTo(s, g, Sleeping(pc.snap, pc.now))
    case TickerFires(g) =>
      s.(runners := s.runners[g := s.runners[g].(ticks := s.runners[g].ticks + 1, pc := Ticking)])
  }

  // What a tick is about to deliver.
  function Batch(t: Table, pc: PC): seq<Completion<nat>>
    requires pc.Delivering?
  {
    Resolve(pc.snap, SnapCmds(t, pc.snap), pc.now, pc.queue, pc.servers)
  }

  ghost predicate Legal(s: State, steps: seq<Step>)
    requires |s.callers| == |s.t.cells|
    decreases |steps|
  {
    steps == [] || (Enabled(s, steps[0]) && Legal(Next(s, steps[0]), steps[1..]))
  }

  ghost function Exec(s: State, steps: seq<Step>): (n: State)
    requires |s.callers| == |s.t.cells| && Legal(s, steps)
    ensures |n.callers| == |n.t.cells|
    decreases |steps|
  {
    if steps == [] then s else Exec(Next(s, steps[0]), steps[1..])
  }

  // ---- The invariant of every run ----

  // A caller and its channel: it received exactly what was sent; a result it has not
  // received is still in the slot; a caller that left by ctx owns no entry.
  predicate ChannelOk(caller: Caller, c: Cell, holds: bool) {
    match caller
    case GotResult(r) => c.closed && c.slot.None? && c.sends == [r]
    case GotCtxErr => !holds && (c.closed ==> c.slot.Some?)
    case _ => c.closed ==> c.slot.Some?
  }

  ghost predicate ChannelsOk(s: State)
    requires |s.callers| == |s.t.cells|
  {
    forall w: nat :: w < |s.callers| ==> ChannelOk(s.callers[w], s.t.cells[w], Holds(s.t, w))
  }

  // One live runner while `running`, none otherwise, and never a waiter without a runner.
  predicate RunnersOk(s: State) {
    && (forall g :: 0 <= g < |s.runners| - 1 ==> s.runners[g].pc.Exited?)
    && (s.runners != [] ==> (s.t.running <==> !s.runners[|s.runners| - 1].pc.Exited?))
    && (s.runners == [] ==> !s.t.running)
    && (s.t.pending != map[] ==> s.t.running)
  }

  // Facts about one runner's tick: the clock reading is no earlier than the ticker allows,
  // and after delivery a snapshot member still pending is not overdue at that reading.
  ghost predicate RunnerOk(s: State, r: Runner) {
    var due := r.start + r.ticks * s.interval;
    match r.pc
    case Spawned => r.ticks == 0
    case Ticking => s.clock >= due
    case Polling(snap) => s.clock >= due && Known(s.t, snap)
    case Enriching(snap, now, _) => now >= due && Known(s.t, snap)
    case Delivering(snap, now, _, _) => now >= due && Known(s.t, snap)
    case Checking(snap, now) => now >= due && Survivors(s.t, snap, now)
    case Sleeping(snap, now) => now >= due && Survivors(s.t, snap, now)
    case Exited => true
  }

  predicate Known(t: Table, snap: seq<nat>) {
    forall i :: 0 <= i < |snap| ==> snap[i] < |t.cells|
  }

  ghost predicate Survivors(t: Table, snap: seq<nat>, now: int) {
    && Known(t, snap)
    && (forall w :: w in snap && Holds(t, w) ==> now <= t.cells[w].cmd.deadline)
  }

  ghost predicate Inv(s: State) {
    && |s.callers| == |s.t.cells| && s.interval > 0
    && TableOk(s.t) && ChannelsOk(s) && RunnersOk(s)
    && forall g :: 0 <= g < |s.runners| ==> RunnerOk(s, s.runners[g])
  }

  lemma TableStep(s: State, step: Step)
    requires Inv(s) && Enabled(s, step)
    ensures TableOk(Next(s, step).t)
  {
    match step
    case Register(cmd) => if !Rejected(s.t, cmd) { AcceptKeeps(s.t, cmd); }
    case Cancel(w) => CancelKeeps(s.t, s.t.cells[w].cmd.commandID, w);
    case Receive(w) => TakeKeeps(s.t, w);
    case Deliver(g) => DeliverAllKeeps(s.t, Batch(s.t, s.runners[g].pc));
    case ExitCheck(g) => StopKeeps(s.t, false);
    case _ =>
  }

  lemma TakeKeeps(t: Table, w: nat)
    requires TableOk(t) && w < |t.cells| && (t.cells[w].closed || t.cells[w].slot.Some?)
    ensures TableOk(Take(t, w))
    ensures forall v: nat :: Holds(Take(t, w), v) == Holds(t, v)
  { }

  lemma StopKeeps(t: Table, running: bool)
    requires TableOk(t)
    ensures TableOk(t.(running := running))
    ensures forall v: nat :: Holds(t.(running := running), v) == Holds(t, v)
  { }

  // What one waiter's cell becomes when runner g delivers.
  lemma DeliveryOutcome(s: State, g: nat, w: nat)
    requires |s.callers| == |s.t.cells| && TableOk(s.t)
    requires Enabled(s, Deliver(g)) && RunnerOk(s, s.runners[g]) && w < |s.t.cells|
    ensures
      var pc := s.runners[g].pc;
      var n := Next(s, Deliver(g));
      var d := Decide(s.t.cells[w].cmd, pc.now, pc.queue, pc.servers);
      if w in pc.snap && Holds(s.t, w) && d.Some? then
        (!Holds(n.t, w) && n.t.cells[w] == s.t.cells[w].(slot := d, closed := true, sends := [d.value]))
      else
        (n.t.cells[w] == s.t.cells[w] && Holds(n.t, w) == Holds(s.t, w))
  {
    var pc := s.runners[g].pc;
    BatchRefinesDecide(s.t, pc.snap, SnapCmds(s.t, pc.snap), pc.now, pc.queue, pc.servers, w);
  }

  // A delivery, seen by one caller.
  lemma ChannelDelivered(s: State, g: nat, w: nat)
    requires |s.callers| == |s.t.cells| && TableOk(s.t) && Enabled(s, Deliver(g)) && RunnerOk(s, s.runners[g])
    requires w < |s.callers| && ChannelOk(s.callers[w], s.t.cells[w], Holds(s.t, w))
    ensures ChannelOk(s.callers[w], Next(s, Deliver(g)).t.cells[w], Holds(Next(s, Deliver(g)).t, w))
  {
    assert Holds(s.t, w) ==> Untouched(s.t.cells[w]);
    DeliveryOutcome(s, g, w);
    hide TableOk, RunnerOk, DeliverAll, Resolve, SnapCmds, Next;
  }

  // A cancel, seen by one caller.
  lemma ChannelCancelled(s: State, v: nat, w: nat)
    requires |s.callers| == |s.t.cells| && TableOk(s.t) && Enabled(s, Cancel(v))
    requires w < |s.callers| && ChannelOk(s.callers[w], s.t.cells[w], Holds(s.t, w))
    ensures ChannelOk(Next(s, Cancel(v)).callers[w], Next(s, Cancel(v)).t.cells[w], Holds(Next(s, Cancel(v)).t, w))
  {
    CancelKeeps(s.t, s.t.cells[v].cmd.commandID, v);
  }

  // What else callers do.
  lemma ChannelOfCaller(s: State, step: Step, w: nat)
    requires |s.callers| == |s.t.cells| && TableOk(s.t) && Enabled(s, step)
    requires step.Register? || step.TakeCtx? || step.Receive?
    requires w < |s.callers| ==> ChannelOk(s.callers[w], s.t.cells[w], Holds(s.t, w))
    requires w < |Next(s, step).callers|
    ensures ChannelOk(Next(s, step).callers[w], Next(s, step).t.cells[w], Holds(Next(s, step).t, w))
  {
    match step
    case Register(cmd) => if !Rejected(s.t, cmd) { AcceptKeeps(s.t, cmd); }
    case Receive(v) => TakeKeeps(s.t, v);
    case TakeCtx(_) =>
  }

  lemma ChannelStepFor(s: State, step: Step, w: nat)
    requires |s.callers| == |s.t.cells| && TableOk(s.t) && Enabled(s, step)
    requires w < |s.callers| ==> ChannelOk(s.callers[w], s.t.cells[w], Holds(s.t, w))
    requires step.Deliver? ==> RunnerOk(s, s.runners[step.g])
    requires w < |Next(s, step).callers|
    ensures ChannelOk(Next(s, step).callers[w], Next(s, step).t.cells[w], Holds(Next(s, step).t, w))
  {
    hide TableOk, ChannelOk, RunnerOk, AsksServers, DeliverAll, Resolve, SnapCmds;
    match step
    case Deliver(g) => ChannelDelivered(s, g, w);
    case ExitCheck(g) => StopKeeps(s.t, false);
    case Cancel(v) => ChannelCancelled(s, v, w);
    case _ =>
      if step.Register? || step.TakeCtx? || step.Receive? {
        ChannelOfCaller(s, step, w);
      }
  }

  lemma RunnersStep(s: State, step: Step)
    requires |s.callers| == |s.t.cells| && RunnersOk(s) && Enabled(s, step)
    ensures RunnersOk(Next(s, step))
  {
    match step
    case Deliver(g) =>
      DeliverAllPending(s.t, Batch(s.t, s.runners[g].pc));
    case _ =>
  }

  lemma {:induction false} DeliverAllPending(t: Table, done: seq<Completion<nat>>)
    ensures DeliverAll(t, done).running == t.running
    ensures DeliverAll(t, done).pending.Keys <= t.pending.Keys
  {
    if done != [] {
      DeliverAllPending(t, done[..|done| - 1]);
    }
  }

  // A runner whose own program counter does not move keeps its facts: later steps only add
  // waiters with new numbers, remove waiters, and let time pass.
  predicate Extends(t: Table, u: Table) {
    && |t.cells| <= |u.cells|
    && (forall w: nat :: w < |t.cells| ==> u.cells[w].cmd == t.cells[w].cmd)
    && (forall w: nat :: w < |t.cells| && Holds(u, w) ==> Holds(t, w))
  }

  lemma StepExtends(s: State, step: Step)
    requires |s.callers| == |s.t.cells| && TableOk(s.t) && Enabled(s, step)
    requires step.Deliver? ==> RunnerOk(s, s.runners[step.g])
    ensures Extends(s.t, Next(s, step).t)
  {
    match step
    case Register(cmd) =>
      if !Rejected(s.t, cmd) {
        AcceptKeeps(s.t, cmd);
      }
    case Cancel(w) => CancelKeeps(s.t, s.t.cells[w].cmd.commandID, w);
    case Receive(w) => TakeKeeps(s.t, w);
    case Deliver(g) =>
      forall w: nat | w < |s.t.cells| {
        DeliveryOutcome(s, g, w);
      }
    case ExitCheck(g) => StopKeeps(s.t, false);
    case _ =>
  }

  lemma RunnerStays(s: State, n: State, r: Runner)
    requires RunnerOk(s, r) && Extends(s.t, n.t) && n.clock >= s.clock && n.interval == s.interval
    ensures RunnerOk(n, r)
  { }

  // The runner that moves. Its delivery leaves no overdue snapshot member pending.
  lemma DeliveryLeavesSurvivors(s: State, g: nat)
    requires |s.callers| == |s.t.cells| && TableOk(s.t)
    requires Enabled(s, Deliver(g)) && RunnerOk(s, s.runners[g])
    ensures Survivors(Next(s, Deliver(g)).t, s.runners[g].pc.snap, s.runners[g].pc.now)
  {
    var n, pc := Next(s, Deliver(g)), s.runners[g].pc;
    forall w | w in pc.snap && Holds(n.t, w)
      ensures pc.now <= n.t.cells[w].cmd.deadline
    {
      DeliveryOutcome(s, g, w);
    }
  }

  lemma RunnerMoves(s: State, step: Step, g: nat)
    requires |s.callers| == |s.t.cells| && TableOk(s.t) && s.interval > 0
    requires Enabled(s, step) && g < |s.runners| && RunnerOk(s, s.runners[g])
    requires !step.Register? && Next(s, step).runners[g] != s.runners[g]
    ensures RunnerOk(Next(s, step), Next(s, step).runners[g])
  {
    match step
    case Deliver(_) => DeliveryLeavesSurvivors(s, g);
    case ExitCheck(_) => StopKeeps(s.t, false);
    case Snapshot(_, snap) =>
      forall i | 0 <= i < |snap|
        ensures snap[i] < |s.t.cells|
      {
        assert Holds(s.t, snap[i]);
      }
    case _ =>
  }

  lemma StepKeeps(s: State, step: Step)
    requires Inv(s) && Enabled(s, step)
    ensures Inv(Next(s, step))
  {
    var n := Next(s, step);
    TableStep(s, step);
    forall w: nat | w < |n.callers| {
      ChannelStepFor(s, step, w);
    }
    RunnersStep(s, step);
    StepExtends(s, step);
    forall g | 0 <= g < |n.runners|
      ensures RunnerOk(n, n.runners[g])
    {
      if g < |s.runners| && n.runners[g] == s.runners[g] {
        RunnerStays(s, n, s.runners[g]);
      } else if g < |s.runners| {
        RunnerMoves(s, step, g);
      }
    }
  }

  // THE INVARIANT HOLDS IN EVERY REACHABLE STATE, whatever the interleaving.
  lemma {:induction false} RunKeeps(s: State, steps: seq<Step>)
    requires Inv(s) && Legal(s, steps)
    ensures Inv(Exec(s, steps))
    decreases |steps|
  {
    if steps != [] {
      StepKeeps(s, steps[0]);
      RunKeeps(Next(s, steps[0]), steps[1..]);
    }
  }

  lemma InitOk(s: State)
    requires Init(s)
    ensures Inv(s)
  { }
}
