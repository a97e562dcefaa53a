/** Draining a node: cordon, then evict in timed passes until a listing holds nothing to
    evict. The protocol of a node's whole scale-down turn is the monitor `Advance`. */
module Drain {
  import opened Common
  import opened PoolMatch
  import opened World

  const BACKOFF := 2 * SECOND
  const BLOCKED_BACKOFF := 5 * SECOND

  predicate IsDaemonSetPod(p: Pod) {
    "DaemonSet" in p.ownerKinds
  }

  predicate IsMirrorPod(p: Pod) {
    "kubernetes.io/config.mirror" in p.annotations
  }

  predicate ShouldEvict(p: Pod) {
    !IsDaemonSetPod(p) && !IsMirrorPod(p) && !p.terminating
  }

  function Evictable(pods: seq<Pod>): seq<Pod> {
    if pods == [] then []
    else
      var n := |pods| - 1;
      Evictable(pods[..n]) + if ShouldEvict(pods[n]) then [pods[n]] else []
  }

  // What the filter keeps, in the pod's own fields.
  lemma {:induction false} EvictableMembers(pods: seq<Pod>, p: Pod)
    ensures p in Evictable(pods) <==> p in pods && ShouldEvict(p)
    ensures p in Evictable(pods) <==>
            && p in pods && "DaemonSet" !in p.ownerKinds
            && "kubernetes.io/config.mirror" !in p.annotations && !p.terminating
  {
    if pods != [] {
      EvictableMembers(pods[..|pods| - 1], p);
      assert pods == pods[..|pods| - 1] + [pods[|pods| - 1]];
    }
  }

  // `out` is what stands at the positions `at`, in increasing order.
  predicate TakenAt(pods: seq<Pod>, out: seq<Pod>, at: seq<nat>) {
    && |at| == |out|
    && (forall i :: 0 <= i < |at| ==> at[i] < |pods| && out[i] == pods[at[i]])
    && forall i, j :: 0 <= i < j < |at| ==> at[i] < at[j]
  }

  lemma TakeOneMore(pods: seq<Pod>, p: Pod, out: seq<Pod>, at: seq<nat>)
    requires TakenAt(pods, out, at)
    ensures TakenAt(pods + [p], out, at) && TakenAt(pods + [p], out + [p], at + [|pods|])
    ensures forall k :: k in at ==> k < |pods|
  { }

  // The filter keeps order and repetitions: the positions it takes are all those of pods to
  // evict, in order.
  lemma {:induction false} EvictableKeepsOrder(pods: seq<Pod>) returns (at: seq<nat>)
    ensures TakenAt(pods, Evictable(pods), at)
    ensures forall k :: 0 <= k < |pods| ==> (k in at <==> ShouldEvict(pods[k]))
  {
    at := [];
    if pods != [] {
      hide ShouldEvict, TakenAt;
      var n := |pods| - 1;
      var init := pods[..n];
      at := EvictableKeepsOrder(init);
      TakeOneMore(init, pods[n], Evictable(init), at);
      assert pods == init + [pods[n]] && forall k :: 0 <= k < n ==> pods[k] == init[k];
      if ShouldEvict(pods[n]) {
        at := at + [n];
      } else {
        assert Evictable(pods) == Evictable(init);
      }
    }
  }

  method FilterEvictable(pods: seq<Pod>) returns (out: seq<Pod>)
    ensures out == Evictable(pods)
  {
    out := [];
    for k := 0 to |pods|
      invariant out == Evictable(pods[..k])
    {
      assert pods[..k + 1][..k] == pods[..k];
      if IsDaemonSetPod(pods[k]) || IsMirrorPod(pods[k]) {
        continue;
      }
      if pods[k].terminating {
        continue;
      }
      out := out + [pods[k]];
    }
    assert pods[..|pods|] == pods;
  }

  // ---- The idle check ----

  predicate Finished(p: Pod) {
    p.phase == "Succeeded" || p.phase == "Failed"
  }

  predicate IsIdle(pods: seq<Pod>) {
    forall p :: p in pods ==> IsDaemonSetPod(p) || IsMirrorPod(p) || Finished(p)
  }

  // A node whose listing passed the idle check has only finished pods left to evict.
  lemma IdleLeavesFinished(pods: seq<Pod>)
    requires IsIdle(pods)
    ensures forall p :: p in Evictable(pods) ==> Finished(p)
  {
    forall p | p in Evictable(pods)
      ensures Finished(p)
    {
      EvictableMembers(pods, p);
    }
  }

  // ---- The protocol of one node's turn ----

  datatype Stage =
    | Fresh
    | Young
    | Aged
    | Busy
    | Idle
    | Cordon
    | Passing(deadline: int)
    | Listing(deadline: int)
    | Evicting(rest: seq<Pod>, blocked: bool, deadline: int)
    | Drained
    | NoServer
    | HasServer(id: string)
    | Terminated
    | Awaited
    | Done(deleted: bool)
    | Stopped
    | Illegal

  // The controller's durations.
  datatype Options = Options(idleThreshold: int, drainTimeout: int)

  // What a turn consists of.
  datatype Turn = Turn(node: Node, opts: Options)

  predicate OldEnough(t: Turn, now: int) {
    t.node.created.None? || now - t.node.created.value >= t.opts.idleThreshold
  }

  function FirstStage(t: Turn): Stage {
    if t.node.created.None? then Aged else Fresh
  }

  // A drain: after the cordon the clock is read to set the deadline; then each pass checks
  // the clock, lists, evicts what is to be evicted in order, and backs off.
  function DrainAdvance(t: Turn, s: Stage, e: Event): Stage {
    match s
    case Cordon => if e.ClockRead? then Passing(e.at + t.opts.drainTimeout) else Illegal
    case Passing(deadline) =>
      if !e.ClockRead? then Illegal
      else if e.at > deadline then Stopped else Listing(deadline)
    case Listing(deadline) =>
      if !e.Listed? || e.node != t.node.name then Illegal else AfterListing(e.pods, deadline)
    case Evicting(rest, blocked, deadline) =>
      if rest == [] then
        if e == Slept(Backoff(blocked)) then Passing(deadline)
        else if e == Cut(Backoff(blocked)) then Stopped else Illegal
      else if !e.Evict? || e.pod != rest[0] then Illegal
      else if e.outcome.EvictFailed? then Stopped
      else Evicting(rest[1..], blocked || e.outcome.Blocked?, deadline)
    case _ => Illegal
  }

  function AfterListing(pods: Option<seq<Pod>>, deadline: int): Stage {
    if pods.None? then Stopped
    else if Evictable(pods.value) == [] then Drained
    else Evicting(Evictable(pods.value), false, deadline)
  }

  // The one legal next stage for each event; anything out of order is Illegal for good.
  function Advance(t: Turn, s: Stage, e: Event): Stage {
    var name := t.node.name;
    match s
    case Fresh => if e.ClockRead? then (if OldEnough(t, e.at) then Aged else Young) else Illegal
    case Aged =>
      if !e.Listed? || e.node != name then Illegal
      else if e.pods.None? then Stopped
      else if IsIdle(e.pods.value) then Idle else Busy
    case Idle => if e.Cordoned? && e.node == name then (if e.ok then Cordon else Stopped) else Illegal
    case Drained =>
      if !e.Find? || e.node != name then Illegal
      else
        (match e.found
         case Found(id) => HasServer(id)
         case Absent => NoServer
         case FindFailed => Stopped)
    case HasServer(id) => if e.Terminate? && e.id == id then (if e.ok then Terminated else Stopped) else Illegal
    case Terminated => if e.WaitTerminate? then Awaited else Illegal
    case NoServer => if e.Delete? && e.node == name then Done(e.ok) else Illegal
    case Awaited => if e.Delete? && e.node == name then Done(e.ok) else Illegal
    case _ => DrainAdvance(t, s, e)
  }

  function StageOf(t: Turn, events: seq<Event>): Stage {
    if events == [] then FirstStage(t)
    else Advance(t, StageOf(t, events[..|events| - 1]), events[|events| - 1])
  }

  lemma StageAppend(t: Turn, events: seq<Event>, e: Event)
    ensures StageOf(t, events + [e]) == Advance(t, StageOf(t, events), e)
  { }

  // ---- The drain loop ----

  function Listings(events: seq<Event>): nat {
    if events == [] then 0
    else Listings(events[..|events| - 1]) + if events[|events| - 1].Listed? then 1 else 0
  }

  function Sleeps(events: seq<Event>, d: int): nat {
    if events == [] then 0
    else Sleeps(events[..|events| - 1], d) + if events[|events| - 1] == Slept(d) then 1 else 0
  }

  function Backoff(blocked: bool): nat {
    if blocked then BLOCKED_BACKOFF else BACKOFF
  }

  lemma CountAppend(events: seq<Event>, e: Event)
    ensures Listings(events + [e]) == Listings(events) + if e.Listed? then 1 else 0
    ensures forall d :: Sleeps(events + [e], d) == Sleeps(events, d) + if e == Slept(d) then 1 else 0
  { }

  lemma StageAfterEvict(t: Turn, events: seq<Event>, rest: seq<Pod>, blocked: bool, deadline: int,
                        outcome: EvictOutcome)
    requires StageOf(t, events) == Evicting(rest, blocked, deadline) && rest != []
    ensures StageOf(t, events + [Evict(rest[0], outcome)]) ==
            if outcome.EvictFailed? then Stopped else Evicting(rest[1..], blocked || outcome.Blocked?, deadline)
  { }

  lemma StageAfterList(t: Turn, events: seq<Event>, pods: Option<seq<Pod>>, deadline: int)
    requires StageOf(t, events) == Listing(deadline)
    ensures StageOf(t, events + [Listed(t.node.name, pods)]) == AfterListing(pods, deadline)
  { }

  lemma StageAfterSleep(t: Turn, events: seq<Event>, blocked: bool, deadline: int, slept: bool)
    requires StageOf(t, events) == Evicting([], blocked, deadline)
    ensures StageOf(t, events + [if slept then Slept(Backoff(blocked)) else Cut(Backoff(blocked))]) ==
            if slept then Passing(deadline) else Stopped
  { }

  lemma StageAfterClock(t: Turn, events: seq<Event>, at: int)
    ensures StageOf(t, events).Cordon? ==> StageOf(t, events + [ClockRead(at)]) == Passing(at + t.opts.drainTimeout)
    ensures StageOf(t, events).Passing? ==>
              StageOf(t, events + [ClockRead(at)]) ==
              if at > StageOf(t, events).deadline then Stopped else Listing(StageOf(t, events).deadline)
  { }

  // An eviction that a disruption budget refused.
  predicate RefusedAt(events: seq<Event>, k: int)
    requires 0 <= k < |events|
  {
    events[k].Evict? && events[k].outcome.Blocked?
  }

  // The evictions of one pass. `blocked`: some eviction was refused by a budget.
  method EvictAll(w: World, t: Turn, pods: seq<Pod>, ghost from: nat, ghost deadline: int)
    returns (ok: bool, blocked: bool)
    requires from <= |w.trace| && StageOf(t, w.trace[from..]) == Evicting(pods, false, deadline)
    modifies w
    ensures old(w.trace) <= w.trace && w.now >= old(w.now)
    ensures StageOf(t, w.trace[from..]) == if ok then Evicting([], blocked, deadline) else Stopped
    ensures |w.trace| <= |old(w.trace)| + |pods| && (ok ==> |w.trace| == |old(w.trace)| + |pods|)
    ensures forall k :: |old(w.trace)| <= k < |w.trace| ==>
              w.trace[k].Evict? && w.trace[k].pod == pods[k - |old(w.trace)|]
    ensures ok ==> (blocked <==> exists k :: |old(w.trace)| <= k < |w.trace| && RefusedAt(w.trace, k))
    ensures !ok ==> |w.trace| > |old(w.trace)| && LastFailed(w.trace)
  {
    hide Advance, StageOf;
    ok, blocked := true, false;
    ghost var base := |w.trace|;
    for i := 0 to |pods|
      invariant ok && old(w.trace) <= w.trace && w.now >= old(w.now)
      invariant StageOf(t, w.trace[from..]) == Evicting(pods[i..], blocked, deadline)
      invariant |w.trace| == base + i
      invariant forall k :: base <= k < |w.trace| ==> w.trace[k].Evict? && w.trace[k].pod == pods[k - base]
      invariant blocked <==> exists k :: base <= k < |w.trace| && RefusedAt(w.trace, k)
    {
      ghost var before, sofar := w.trace[from..], w.trace;
      var outcome := w.EvictPod(pods[i]);
      assert forall k :: base <= k < base + i ==> RefusedAt(w.trace, k) == RefusedAt(sofar, k);
      StageAfterEvict(t, before, pods[i..], blocked, deadline, outcome);
      assert w.trace[from..] == before + [Evict(pods[i], outcome)] && pods[i..][1..] == pods[i + 1..];
      if outcome.Blocked? {
        assert RefusedAt(w.trace, base + i);
        blocked := true;
        continue;
      }
      if outcome.EvictFailed? {
        return false, blocked;
      }
    }
  }

  lemma {:induction false} EvictionsDoNotCount(a: seq<Event>, b: seq<Event>, base: nat)
    requires base <= |a| && a <= b && forall k :: |a| <= k < |b| ==> b[k].Evict?
    ensures Listings(b[base..]) == Listings(a[base..])
    ensures forall d :: Sleeps(b[base..], d) == Sleeps(a[base..], d)
  {
    if a != b {
      var n := |b| - 1;
      EvictionsDoNotCount(a, b[..n], base);
      CountAppend(b[..n][base..], b[n]);
      assert b[base..] == b[..n][base..] + [b[n]];
    }
  }

  datatype Pass = Clear | Failed | Again(blocked: bool)

  function Kept(pods: Option<seq<Pod>>): seq<Pod> {
    if pods.None? then [] else Evictable(pods.value)
  }

  predicate LastFailed(events: seq<Event>) {
    events != [] && events[|events| - 1].Evict? && events[|events| - 1].outcome.EvictFailed?
  }

  // What one pass leaves in the trace: one listing of this node, then one eviction for each
  // pod the filter keeps, in order: all of them unless an eviction fails; then the back-off,
  // slept or cut short. It fails for no other reason than these.
  predicate PassEvents(t: Turn, events: seq<Event>, r: Pass) {
    && |events| >= 1 && events[0].Listed? && events[0].node == t.node.name
    && var out := Kept(events[0].pods);
    && (r.Clear? <==> events[0].pods.Some? && out == [])
    && (r.Clear? ==> |events| == 1)
    && |events| <= |out| + 2
    && (forall k :: 1 <= k < |events| && k <= |out| ==> events[k].Evict? && events[k].pod == out[k - 1])
    && (r.Again? ==> |events| == |out| + 2 && events[|out| + 1] == Slept(Backoff(r.blocked)))
    && (r.Failed? ==> events[0].pods.None? || LastFailed(events)
                      || (|events| == |out| + 2 && events[|out| + 1].Cut?))
  }

  // One pass of the drain loop: list, filter, evict, back off.
  method DrainPass(w: World, t: Turn, ghost from: nat, ghost base: nat, ghost deadline: int) returns (r: Pass)
    requires from <= |w.trace| && base <= |w.trace| && StageOf(t, w.trace[from..]) == Listing(deadline)
    modifies w
    ensures old(w.trace) <= w.trace && w.now >= old(w.now) + if r.Again? then Backoff(r.blocked) else 0
    ensures StageOf(t, w.trace[from..]) ==
            match r case Clear => Drained case Failed => Stopped case Again(_) => Passing(deadline)
    ensures Listings(w.trace[base..]) == Listings(old(w.trace[base..])) + 1
    ensures forall d :: Sleeps(w.trace[base..], d) ==
              Sleeps(old(w.trace[base..]), d) + if r.Again? && d == Backoff(r.blocked) then 1 else 0
    ensures r.Again? ==> (r.blocked <==> exists k :: |old(w.trace)| <= k < |w.trace| && RefusedAt(w.trace, k))
    ensures PassEvents(t, w.trace[|old(w.trace)|..], r)
  {
    hide Advance, StageOf, Listings, Sleeps, PassEvents, Evictable, Closes;
    var pods := ListOnce(w, t, from, base, deadline);
    ghost var listed := w.trace;
    if pods.None? {
      PassTrace(t, old(w.trace), w.trace, pods, 0, Failed);
      return Failed;
    }
    var evictable := FilterEvictable(pods.value);
    if |evictable| == 0 {
      PassTrace(t, old(w.trace), w.trace, pods, 0, Clear);
      return Clear;
    }
    ghost var n: nat;
    r, n := EvictAndBackOff(w, t, evictable, from, base, deadline);
    PassTrace(t, old(w.trace), w.trace, pods, n, r);
    assert r.Again? ==> forall k :: |old(w.trace)| <= k < |listed| ==> !RefusedAt(w.trace, k);
  }

  // `n` is the number of evictions.
  method EvictAndBackOff(w: World, t: Turn, pods: seq<Pod>, ghost from: nat, ghost base: nat, ghost deadline: int)
    returns (r: Pass, ghost n: nat)
    requires from <= |w.trace| && base <= |w.trace|
    requires pods != [] && StageOf(t, w.trace[from..]) == Evicting(pods, false, deadline)
    modifies w
    ensures !r.Clear? && old(w.trace) <= w.trace && w.now >= old(w.now) + if r.Again? then Backoff(r.blocked) else 0
    ensures StageOf(t, w.trace[from..]) == if r.Again? then Passing(deadline) else Stopped
    ensures Listings(w.trace[base..]) == Listings(old(w.trace[base..]))
    ensures forall d :: Sleeps(w.trace[base..], d) ==
              Sleeps(old(w.trace[base..]), d) + if r.Again? && d == Backoff(r.blocked) then 1 else 0
    ensures r.Again? ==> (r.blocked <==> exists k :: |old(w.trace)| <= k < |w.trace| && RefusedAt(w.trace, k))
    ensures n <= |pods| && |old(w.trace)| + n <= |w.trace| && |w.trace| > |old(w.trace)|
    ensures forall k :: |old(w.trace)| <= k < |old(w.trace)| + n ==>
              w.trace[k].Evict? && w.trace[k].pod == pods[k - |old(w.trace)|]
    ensures Closes(w.trace, |old(w.trace)| + n, n == |pods|, r)
  {
    hide Advance, StageOf, Listings, Sleeps;
    ghost var listed := w.trace;
    var ok, blocked := EvictAll(w, t, pods, from, deadline);
    ghost var evicted := w.trace;
    n := |evicted| - |listed|;
    EvictionsDoNotCount(listed, w.trace, base);
    if !ok {
      return Failed, n;
    }
    var slept := SleepOnce(w, t, blocked, from, base, deadline);
    assert forall k :: |listed| <= k < |evicted| ==> RefusedAt(w.trace, k) == RefusedAt(evicted, k);
    r := if slept then Again(blocked) else Failed;
  }

  // How a pass ends after its evictions, `all` of them or not: with one that failed, or with
  // the back-off.
  predicate Closes(end: seq<Event>, evicted: nat, all: bool, r: Pass) {
    if |end| == evicted then r.Failed? && LastFailed(end)
    else
      && all && |end| == evicted + 1
      && if r.Again? then end[evicted] == Slept(Backoff(r.blocked)) else r.Failed? && end[evicted].Cut?
  }

  // What the trace holds after a listing, so many evictions, and the back-off.
  lemma PassTrace(t: Turn, before: seq<Event>, end: seq<Event>, pods: Option<seq<Pod>>, n: nat, r: Pass)
    requires |end| >= |before| + 1 + n && end[|before|] == Listed(t.node.name, pods) && n <= |Kept(pods)|
    requires forall k :: |before| < k <= |before| + n ==>
               end[k].Evict? && end[k].pod == Kept(pods)[k - |before| - 1]
    requires if Kept(pods) == [] then |end| == |before| + 1 && r == (if pods.Some? then Clear else Failed)
             else Closes(end, |before| + 1 + n, n == |Kept(pods)|, r) && (n == 0 ==> |end| > |before| + 1)
    ensures PassEvents(t, end[|before|..], r)
  {
    hide Evictable;
    var events := end[|before|..];
    assert forall k :: 0 <= k < |events| ==> events[k] == end[k + |before|];
    assert LastFailed(end) ==> LastFailed(events);
  }

  method ListOnce(w: World, t: Turn, ghost from: nat, ghost base: nat, ghost deadline: int)
    returns (pods: Option<seq<Pod>>)
    requires from <= |w.trace| && base <= |w.trace| && StageOf(t, w.trace[from..]) == Listing(deadline)
    modifies w
    ensures old(w.trace) <= w.trace && w.now >= old(w.now)
    ensures StageOf(t, w.trace[from..]) == AfterListing(pods, deadline)
    ensures Listings(w.trace[base..]) == Listings(old(w.trace[base..])) + 1
    ensures forall d :: Sleeps(w.trace[base..], d) == Sleeps(old(w.trace[base..]), d)
    ensures w.trace == old(w.trace) + [Listed(t.node.name, pods)]
  {
    hide Advance, StageOf, Listings, Sleeps;
    ghost var before, seg := w.trace[from..], w.trace[base..];
    pods := w.ListPodsOnNode(t.node.name);
    ghost var e := Listed(t.node.name, pods);
    assert w.trace[from..] == before + [e] && w.trace[base..] == seg + [e];
    StageAfterList(t, before, pods, deadline);
    CountAppend(seg, e);
  }

  method SleepOnce(w: World, t: Turn, blocked: bool, ghost from: nat, ghost base: nat, ghost deadline: int)
    returns (slept: bool)
    requires from <= |w.trace| && base <= |w.trace|
    requires StageOf(t, w.trace[from..]) == Evicting([], blocked, deadline)
    modifies w
    ensures old(w.trace) <= w.trace && w.now >= old(w.now) + if slept then Backoff(blocked) else 0
    ensures StageOf(t, w.trace[from..]) == if slept then Passing(deadline) else Stopped
    ensures Listings(w.trace[base..]) == Listings(old(w.trace[base..]))
    ensures forall d :: Sleeps(w.trace[base..], d) ==
              Sleeps(old(w.trace[base..]), d) + if slept && d == Backoff(blocked) then 1 else 0
    ensures w.trace == old(w.trace) + [if slept then Slept(Backoff(blocked)) else Cut(Backoff(blocked))]
  {
    hide Advance, StageOf, Listings, Sleeps;
    ghost var before, seg := w.trace[from..], w.trace[base..];
    slept := w.Sleep(Backoff(blocked));
    ghost var e := if slept then Slept(Backoff(blocked)) else Cut(Backoff(blocked));
    assert w.trace[from..] == before + [e] && w.trace[base..] == seg + [e];
    StageAfterSleep(t, before, blocked, deadline, slept);
    CountAppend(seg, e);
  }

  method ClockOnce(w: World, t: Turn, ghost from: nat, ghost base: nat) returns (at: int)
    requires from <= |w.trace| && base <= |w.trace|
    requires StageOf(t, w.trace[from..]).Cordon? || StageOf(t, w.trace[from..]).Passing?
    modifies w
    ensures old(w.trace) <= w.trace && old(w.now) <= at <= w.now
    ensures
      var s := old(StageOf(t, w.trace[from..]));
      StageOf(t, w.trace[from..]) ==
      if s.Cordon? then Passing(at + t.opts.drainTimeout)
      else if at > s.deadline then Stopped else Listing(s.deadline)
    ensures Listings(w.trace[base..]) == Listings(old(w.trace[base..]))
    ensures forall d :: Sleeps(w.trace[base..], d) == Sleeps(old(w.trace[base..]), d)
  {
    hide Advance, StageOf, Listings, Sleeps;
    ghost var before, seg := w.trace[from..], w.trace[base..];
    at := w.Now();
    assert w.trace[from..] == before + [ClockRead(at)] && w.trace[base..] == seg + [ClockRead(at)];
    StageAfterClock(t, before, at);
    CountAppend(seg, ClockRead(at));
  }

  // drainNode. It follows the protocol, so it gives up only after a failed cordon, listing or
  // eviction, a back-off cut short, or a clock past the deadline. Its last pass began after
  // `short` + `long` back-offs were slept: their sum fits the timeout.
  method DrainNode(w: World, t: Turn, ghost from: nat) returns (ok: bool, ghost short: nat, ghost long: nat)
    requires from <= |w.trace| && StageOf(t, w.trace[from..]) == Idle
    modifies w
    ensures old(w.trace) <= w.trace && w.now >= old(w.now)
    ensures StageOf(t, w.trace[from..]) == if ok then Drained else Stopped
    ensures WithinBudget(w.trace[|old(w.trace)|..], short, long, t.opts.drainTimeout)
  {
    hide Advance, StageOf, Listings, Sleeps;
    short, long := 0, 0;
    ghost var base := |w.trace|;
    ok := CordonOnce(w, t, from);
    if !ok {
      return;
    }
    var start := ClockOnce(w, t, from, base);
    var deadline := start + t.opts.drainTimeout;
    ghost var a, b := 0, 0;  // back-offs slept so far, of either length
    while true
      invariant base == |old(w.trace)| && old(w.trace) <= w.trace && w.now >= old(w.now)
      invariant StageOf(t, w.trace[from..]) == Passing(deadline)
      invariant Sleeps(w.trace[base..], BACKOFF) == a && Sleeps(w.trace[base..], BLOCKED_BACKOFF) == b
      invariant Listings(w.trace[base..]) == a + b
      invariant w.now >= start + a * BACKOFF + b * BLOCKED_BACKOFF
      invariant WithinBudget(w.trace[base..], short, long, t.opts.drainTimeout)
      decreases deadline - w.now
    {
      var now := ClockOnce(w, t, from, base);
      if now > deadline {
        return false, short, long;
      }
      short, long := a, b;
      var r := DrainPass(w, t, from, base, deadline);
      match r
      case Clear => return true, short, long;
      case Failed => return false, short, long;
      case Again(blocked) =>
        if blocked {
          b := b + 1;
        } else {
          a := a + 1;
        }
    }
  }

  lemma NoneCounted()
    ensures Listings([]) == 0 && forall d :: Sleeps([], d) == 0
  { }

  method CordonOnce(w: World, t: Turn, ghost from: nat) returns (ok: bool)
    requires from <= |w.trace| && StageOf(t, w.trace[from..]) == Idle
    modifies w
    ensures old(w.trace) <= w.trace && w.now >= old(w.now)
    ensures StageOf(t, w.trace[from..]) == if ok then Cordon else Stopped
    ensures Listings(w.trace[|old(w.trace)|..]) == 0 && forall d :: Sleeps(w.trace[|old(w.trace)|..], d) == 0
  {
    hide StageOf, Listings, Sleeps;
    ghost var before := w.trace[from..];
    ok := w.Cordon(t.node.name);
    StageAppend(t, before, Cordoned(t.node.name, ok));
    assert w.trace[from..] == before + [Cordoned(t.node.name, ok)];
    assert w.trace[|old(w.trace)|..] == [] + [Cordoned(t.node.name, ok)];
    CountAppend([], Cordoned(t.node.name, ok));
    NoneCounted();
  }

  // The last of the listed passes came after `short` + `long` back-offs that fit the timeout.
  predicate WithinBudget(events: seq<Event>, short: nat, long: nat, timeout: int) {
    && (Listings(events) > 0 ==>
          Listings(events) == short + long + 1 && short * BACKOFF + long * BLOCKED_BACKOFF <= timeout)
    && short <= Sleeps(events, BACKOFF) && long <= Sleeps(events, BLOCKED_BACKOFF)
  }

  // DRAIN TERMINATES WITHIN ITS BUDGET: at most floor(timeout/2s) + 1 passes, and at most
  // floor(timeout/5s) + 1 if every back-off was a blocked one.
  lemma DrainBudget(events: seq<Event>, short: nat, long: nat, timeout: int)
    requires WithinBudget(events, short, long, timeout) && timeout >= 0
    ensures Listings(events) <= timeout / 2_000_000_000 + 1
    ensures Sleeps(events, 2_000_000_000) == 0 ==> Listings(events) <= timeout / 5_000_000_000 + 1
  { }
}
