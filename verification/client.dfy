/** The client's loops: bounded retries with geometric back-off, a create that is sent once,
    and the recovery poll that follows a lost create. */
module Client {
  import opened Common
  import opened KamateraTypes

  // What one HTTP attempt comes to. A success carries the command id its body decodes to.
  datatype Outcome =
    | Success(commandID: Option<string>)
    | Status(code: int)
    | Transport
    | Unbuildable

  datatype Call = CreateCall(name: string) | TerminateCall(id: string)

  datatype ApiError =
    | Http(code: int)
    | TransportErr
    | BuildErr
    | CtxErr
    | MarshalErr
    | DecodeErr
    | NameEmpty
    | NotFound(name: string)
    | TimedOut

  predicate IsClientError(e: ApiError) {
    e.Http? && 400 <= e.code < 500
  }

  // Everything that is not an answer of the API counts as transport.
  predicate IsTransportError(e: ApiError) {
    !e.Http?
  }

  // A Request is an attempt at the call; one that cannot be built never leaves the client.
  // A wait is recorded as Cut when the context is cancelled before its end. Dropped: a creation
  // gave up its tracker entry, which it held until then or not.
  datatype Event =
    | Request(call: Call, outcome: Outcome)
    | Waited(d: int)
    | Cut(d: int)
    | ClockRead(at: int)
    | ServersListed(answer: Result<seq<Server>, ApiError>)
    | Provisioned(commandID: string, ok: bool)
    | Dropped(name: string, held: bool)

  class Api {
    var now: int
    var trace: seq<Event>

    constructor (now: int)
      ensures this.now == now && trace == []
    {
      this.now, trace := now, [];
    }

    method Send(call: Call) returns (outcome: Outcome)
      modifies this
      ensures trace == old(trace) + [Request(call, outcome)] && now >= old(now)
      ensures outcome.Status? ==> !(200 <= outcome.code < 300)
    {
      outcome := *;
      if outcome.Status? && 200 <= outcome.code < 300 {
        outcome := Success(None);
      }
      trace := trace + [Request(call, outcome)];
      var late: int := *;
      now := now + Max(0, late);
    }

    // Blocks until the watcher answers for the command; no request of its own.
    method WaitProvision(commandID: string) returns (ok: bool)
      modifies this
      ensures trace == old(trace) + [Provisioned(commandID, ok)] && now >= old(now)
    {
      ok := *;
      trace := trace + [Provisioned(commandID, ok)];
      var late: int := *;
      now := now + Max(0, late);
    }

    // Waits for d, at once if d is not positive, unless the context is cancelled first.
    method Wait(d: int) returns (waited: bool)
      modifies this
      ensures trace == old(trace) + [if waited then Waited(d) else Cut(d)]
      ensures now >= old(now) + if waited then Max(0, d) else 0
    {
      waited := *;
      var late: int := *;
      now := now + Max(0, late);
      if waited {
        now := now + Max(0, d);
      }
      trace := trace + [if waited then Waited(d) else Cut(d)];
    }

    method ReadClock() returns (t: int)
      modifies this
      ensures trace == old(trace) + [ClockRead(t)] && old(now) <= t <= now
    {
      var late: int := *;
      now := now + Max(0, late);
      t := now;
      trace := trace + [ClockRead(t)];
    }

    // Notes what is not a call, at the moment it happens.
    method Note(e: Event)
      modifies this`trace
      ensures trace == old(trace) + [e]
    {
      trace := trace + [e];
    }

    method ListServers() returns (answer: Result<seq<Server>, ApiError>)
      modifies this
      ensures trace == old(trace) + [ServersListed(answer)] && now >= old(now)
    {
      answer := *;
      trace := trace + [ServersListed(answer)];
      var late: int := *;
      now := now + Max(0, late);
    }
  }

  // ---- Retries ----

  // time.Duration is a signed 64-bit integer: multiplying may wrap around.
  const TWO_63 := 0x8000_0000_0000_0000
  const TWO_64 := 0x1_0000_0000_0000_0000

  predicate InInt64(x: int) {
    -TWO_63 <= x < TWO_63
  }

  function Wrap64(x: int): (r: int)
    ensures InInt64(r) && (InInt64(x) ==> r == x)
  {
    (x + TWO_63) % TWO_64 - TWO_63
  }

  function Pow3(n: nat): (p: nat)
    ensures p >= 1
  {
    if n == 0 then 1 else 3 * Pow3(n - 1)
  }

  // The back-off before attempt j + 1, as the loop's variable holds it.
  function WaitAt(base: int, j: nat): int {
    if j == 0 then base else Wrap64(3 * WaitAt(base, j - 1))
  }

  predicate Retryable(o: Outcome) {
    o.Transport? || (o.Status? && !(400 <= o.code < 500))
  }

  datatype Answer = Body(commandID: Option<string>) | Fail(error: ApiError)

  function AnswerTo(o: Outcome): Answer {
    match o
    case Success(id) => Body(id)
    case Status(code) => Fail(Http(code))
    case Transport => Fail(TransportErr)
    case Unbuildable => Fail(BuildErr)
  }

  // The events of a request whose attempts came out as `outs`.
  function DoTrace(call: Call, base: int, outs: seq<Outcome>): seq<Event> {
    if outs == [] then []
    else
      var n := |outs| - 1;
      if n == 0 then [Request(call, outs[0])]
      else DoTrace(call, base, outs[..n]) + [Waited(WaitAt(base, n - 1)), Request(call, outs[n])]
  }

  function MaxAttempts(retryable: bool, maxRetries: int): int {
    if retryable then maxRetries + 1 else 1
  }

  // Attempts stop at the first final outcome, or when they are used up, or when the context
  // is cancelled in a back-off; never earlier and never later.
  predicate StopsRight(outs: seq<Outcome>, attempts: int, cut: bool) {
    && (forall i :: 0 <= i < |outs| - 1 ==> Retryable(outs[i]))
    && |outs| <= Max(0, attempts)
    && (cut ==> 0 < |outs| < attempts && Retryable(outs[|outs| - 1]))
    && (!cut ==> |outs| >= attempts || (outs != [] && !Retryable(outs[|outs| - 1])))
  }

  lemma DoTraceAppend(call: Call, base: int, outs: seq<Outcome>, o: Outcome)
    ensures DoTrace(call, base, outs + [o]) ==
            DoTrace(call, base, outs) +
            (if outs == [] then [] else [Waited(WaitAt(base, |outs| - 1))]) + [Request(call, o)]
  { }

  // One turn of the retry loop after its first: back off, then send again. None: cancelled.
  method SendAgain(api: Api, call: Call, delay: int) returns (outcome: Option<Outcome>)
    modifies api
    ensures api.now >= old(api.now)
    ensures api.trace == old(api.trace) +
                         if outcome.Some? then [Waited(delay)] + [Request(call, outcome.value)] else [Cut(delay)]
  {
    var waited := api.Wait(delay);
    if !waited {
      return None;
    }
    var o := api.Send(call);
    outcome := Some(o);
  }

  method Do(api: Api, call: Call, retryable: bool, maxRetries: int, retryBase: int)
    returns (r: Answer, ghost outs: seq<Outcome>, ghost cut: bool)
    modifies api
    ensures StopsRight(outs, MaxAttempts(retryable, maxRetries), cut) && api.now >= old(api.now)
    ensures api.trace == old(api.trace) + DoTrace(call, retryBase, outs) +
                         if cut then [Cut(WaitAt(retryBase, |outs| - 1))] else []
    ensures r == if cut then Fail(CtxErr)
                 else if outs == [] then Body(None) else AnswerTo(outs[|outs| - 1])
    ensures !cut && outs != [] ==>
              match outs[|outs| - 1]
              case Success(id) => r == Body(id)
              case Status(code) => r == Fail(Http(code))
              case Transport => r == Fail(TransportErr)
              case Unbuildable => r == Fail(BuildErr)
  {
    hide DoTrace, Wrap64;
    var maxAttempts := if retryable then maxRetries + 1 else 1;
    var lastErr: Option<ApiError> := None;
    var delay := retryBase;
    outs, cut := [], false;
    var attempt := 0;
    assert DoTrace(call, retryBase, []) == [] by {
      NoAttemptNoTrace(call, retryBase);
    }
    while attempt < maxAttempts
      invariant 0 <= attempt <= Max(0, maxAttempts) && |outs| == attempt && !cut
      invariant api.trace == old(api.trace) + DoTrace(call, retryBase, outs) && api.now >= old(api.now)
      invariant forall i :: 0 <= i < |outs| ==> Retryable(outs[i])
      invariant delay == WaitAt(retryBase, if attempt == 0 then 0 else attempt - 1)
      invariant if outs == [] then lastErr.None?
                else lastErr.Some? && AnswerTo(outs[|outs| - 1]) == Fail(lastErr.value)
    {
      ghost var before, events := api.trace, DoTrace(call, retryBase, outs);
      var outcome: Outcome;
      if attempt > 0 {
        var sent := SendAgain(api, call, delay);
        if sent.None? {
          cut := true;
          return Fail(CtxErr), outs, cut;
        }
        outcome := sent.value;
        delay := Wrap64(3 * delay);
      } else {
        outcome := api.Send(call);
      }
      DoTraceAppend(call, retryBase, outs, outcome);
      outs := outs + [outcome];
      assert api.trace == old(api.trace) + DoTrace(call, retryBase, outs);
      match outcome {
        case Unbuildable => return Fail(BuildErr), outs, cut;
        case Transport => lastErr := Some(TransportErr);
        case Success(id) => return Body(id), outs, cut;
        case Status(code) =>
          if 400 <= code < 500 {
            return Fail(Http(code)), outs, cut;
          }
          lastErr := Some(Http(code));
      }
      attempt := attempt + 1;
    }
    // No attempt at all leaves the error unset: the caller sees an empty body.
    r := if lastErr.Some? then Fail(lastErr.value) else Body(None);
  }

  lemma NoAttemptNoTrace(call: Call, base: int)
    ensures DoTrace(call, base, []) == []
  { }

  // ---- What a request costs ----

  function Requests(events: seq<Event>): nat {
    if events == [] then 0
    else Requests(events[..|events| - 1]) + if events[|events| - 1].Request? then 1 else 0
  }

  function TotalWait(events: seq<Event>): int {
    if events == [] then 0
    else
      var e := events[|events| - 1];
      TotalWait(events[..|events| - 1]) + if e.Waited? then e.d else 0
  }

  lemma CostAppend(events: seq<Event>, e: Event)
    ensures Requests(events + [e]) == Requests(events) + if e.Request? then 1 else 0
    ensures TotalWait(events + [e]) == TotalWait(events) + if e.Waited? then e.d else 0
  { }

  // THE BACK-OFFS ARE GEOMETRIC EXACTLY WHILE THEY FIT. The first n back-offs are base,
  // 3 base, 9 base, ... if and only if the largest of them is a 64-bit integer; otherwise
  // the duration has wrapped around.
  lemma {:induction false} WaitsAreGeometric(base: int, n: nat)
    requires InInt64(base) && n > 0
    ensures (forall j: nat :: j < n ==> WaitAt(base, j) == base * Pow3(j)) <==> InInt64(base * Pow3(n - 1))
  {
    if n == 1 {
      assert WaitAt(base, 0) == base * Pow3(0);
    } else {
      WaitsAreGeometric(base, n - 1);
      var p := Pow3(n - 2);
      assert base * Pow3(n - 1) == 3 * (base * p) by {
        Regroup(base, p);
      }
      assert InInt64(WaitAt(base, n - 1));
      if InInt64(base * Pow3(n - 1)) {
        assert InInt64(base * p);
      }
    }
  }

  // The documented base delay of one second wraps at the 22nd back-off: it is then negative,
  // so that the next attempt follows at once.
  lemma OneSecondWraps()
    ensures WaitAt(SECOND, 20) == SECOND * Pow3(20)
    ensures WaitAt(SECOND, 21) == SECOND * Pow3(21) - TWO_64 < 0
  {
    assert Pow3(10) == 59049;
    assert Pow3(20) == 3486784401 by {
      assert Pow3(15) == 14348907;
    }
    WaitsAreGeometric(SECOND, 21);
  }

  lemma Regroup(base: int, p: int)
    ensures base * (3 * p) == 3 * (base * p)
  { }

  function WaitsSum(base: int, n: nat): int {
    if n == 0 then 0 else WaitsSum(base, n - 1) + WaitAt(base, n - 1)
  }

  lemma {:induction false} TraceCost(call: Call, base: int, outs: seq<Outcome>)
    requires outs != []
    ensures Requests(DoTrace(call, base, outs)) == |outs|
    ensures TotalWait(DoTrace(call, base, outs)) == WaitsSum(base, |outs| - 1)
  {
    var n := |outs| - 1;
    if n == 0 {
      assert DoTrace(call, base, outs) == [] + [Request(call, outs[0])];
      CostAppend([], Request(call, outs[0]));
    } else {
      TraceCost(call, base, outs[..n]);
      var init, w := DoTrace(call, base, outs[..n]), Waited(WaitAt(base, n - 1));
      CostAppend(init, w);
      CostAppend(init + [w], Request(call, outs[n]));
      assert DoTrace(call, base, outs) == init + [w] + [Request(call, outs[n])];
    }
  }

  lemma {:induction false} WaitsSumIsGeometric(base: int, n: nat)
    requires forall j: nat :: j < n ==> WaitAt(base, j) == base * Pow3(j)
    ensures 2 * WaitsSum(base, n) == base * (Pow3(n) - 1)
  {
    if n > 0 {
      WaitsSumIsGeometric(base, n - 1);
      GeometricSum(base, n);
    }
  }

  // A request that made a attempts sent a requests, and slept base * (3^(a-1) - 1) / 2 in
  // all, as long as its longest back-off fits a 64-bit duration.
  lemma RequestCost(call: Call, base: int, outs: seq<Outcome>)
    requires InInt64(base) && outs != []
    ensures Requests(DoTrace(call, base, outs)) == |outs|
    ensures |outs| == 1 || InInt64(base * Pow3(|outs| - 2)) ==>
              2 * TotalWait(DoTrace(call, base, outs)) == base * (Pow3(|outs| - 1) - 1)
  {
    TraceCost(call, base, outs);
    var n := |outs| - 1;
    if n > 0 {
      WaitsAreGeometric(base, n);
    }
    if n == 0 || InInt64(base * Pow3(n - 1)) {
      WaitsSumIsGeometric(base, n);
    }
  }

  lemma GeometricSum(base: int, n: nat)
    requires n > 0
    ensures base * (Pow3(n - 1) - 1) + 2 * (base * Pow3(n - 1)) == base * (Pow3(n) - 1)
  { }

  // WHEN ATTEMPTS STOP, by their HTTP codes. Every attempt but the last met a transport failure
  // or a code outside 400-499. If attempts are left and no back-off was cancelled, the last one
  // met a success, a 4xx code, or could not be built; a request that is not retryable has one.
  lemma AttemptsStopByCode(outs: seq<Outcome>, retryable: bool, maxRetries: int, cut: bool)
    requires StopsRight(outs, MaxAttempts(retryable, maxRetries), cut)
    ensures forall i :: 0 <= i < |outs| - 1 ==>
              outs[i] == Transport || (outs[i].Status? && (outs[i].code < 400 || outs[i].code > 499))
    ensures |outs| <= Max(0, if retryable then 1 + maxRetries else 1)
    ensures !cut && |outs| < (if retryable then 1 + maxRetries else 1) ==>
              && outs != []
              && match outs[|outs| - 1]
                 case Success(_) => true
                 case Status(code) => 400 <= code <= 499
                 case Transport => false
                 case Unbuildable => true
  { }

  // With a negative retry count a retryable request is never sent, and reports no error.
  lemma NoAttemptIsNoError(outs: seq<Outcome>, maxRetries: int, cut: bool)
    requires StopsRight(outs, MaxAttempts(true, maxRetries), cut)
    ensures outs == [] <==> maxRetries < 0
  { }

  // ---- Create once, recover by name ----

  // How often the server list was asked for.
  function Lookups(events: seq<Event>): nat {
    if events == [] then 0
    else Lookups(events[..|events| - 1]) + if events[|events| - 1].ServersListed? then 1 else 0
  }

  function MaxLookups(p: Params): int
    requires ValidParams(p)
  {
    p.recoveryMax / p.pollEvery + 2
  }

  datatype Params = Params(retryBase: int, maxRetries: int, grace: int, pollEvery: int, recoveryMax: int)

  // The constructor's defaults are positive, and the option that sets the recovery
  // durations ignores values that are not.
  predicate ValidParams(p: Params) {
    p.grace > 0 && p.pollEvery > 0 && p.recoveryMax > 0
  }

  // A listing in which the first server of that name is `server`.
  predicate Shows(e: Event, name: string, server: Server) {
    e.ServersListed? && e.answer.Ok? && FirstNamed(e.answer.value, name) == Some(server)
  }

  ghost predicate ShownIn(events: seq<Event>, name: string) {
    exists k, server :: 0 <= k < |events| && Shows(events[k], name, server)
  }

  // The method scans the listing and returns the first match.
  method FindServerByName(api: Api, name: string) returns (r: Result<Server, ApiError>)
    modifies api
    ensures api.now >= old(api.now)
    ensures name == "" ==> api.trace == old(api.trace) && r == Err(NameEmpty)
    ensures name != "" ==> exists a :: api.trace == old(api.trace) + [ServersListed(a)] && r == Lookup(a, name)
  {
    if name == "" {
      return Err(NameEmpty);
    }
    var answer := api.ListServers();
    if answer.Err? {
      return Err(answer.error);
    }
    var servers := answer.value;
    for k := 0 to |servers|
      invariant FirstNamed(servers, name) == FirstNamed(servers[k..], name)
    {
      if servers[k].name == name {
        return Ok(servers[k]);
      }
    }
    r := Err(NotFound(name));
  }

  function Lookup(answer: Result<seq<Server>, ApiError>, name: string): Result<Server, ApiError> {
    match answer
    case Err(e) => Err(e)
    case Ok(servers) =>
      match FirstNamed(servers, name)
      case Some(srv) => Ok(srv)
      case None => Err(NotFound(name))
  }

  // The protocol of the recovery poll. Ready: about to list the servers. Asked: listed, about
  // to check the clock. Pausing: about to wait for the next poll. Without a name nothing is
  // listed, and the lookup fails at once.
  datatype Poll =
    | Begun
    | Rested
    | Ready(deadline: int)
    | Asked(deadline: int)
    | Pausing(deadline: int)
    | Over(result: Result<Server, ApiError>)
    | Illegal

  function Asking(name: string, deadline: int): Poll {
    if name == "" then Asked(deadline) else Ready(deadline)
  }

  // A server found or a 4xx error ends the poll.
  function AfterLookup(r: Result<Server, ApiError>, deadline: int): Poll {
    if r.Ok? || IsClientError(r.error) then Over(r) else Asked(deadline)
  }

  // The one legal next stage for each event.
  function Advance(p: Params, name: string, s: Poll, e: Event): Poll {
    match s
    case Begun =>
      if e == Waited(p.grace) then Rested
      else if e == Cut(p.grace) then Over(Err(CtxErr)) else Illegal
    case Rested => if e.ClockRead? then Asking(name, e.at + p.recoveryMax) else Illegal
    case Ready(deadline) => if e.ServersListed? then AfterLookup(Lookup(e.answer, name), deadline) else Illegal
    case Asked(deadline) =>
      if !e.ClockRead? then Illegal
      else if e.at > deadline then Over(Err(TimedOut)) else Pausing(deadline)
    case Pausing(deadline) =>
      if e == Waited(p.pollEvery) then Asking(name, deadline)
      else if e == Cut(p.pollEvery) then Over(Err(CtxErr)) else Illegal
    case _ => Illegal
  }

  function PollOf(p: Params, name: string, events: seq<Event>): Poll {
    if events == [] then Begun
    else Advance(p, name, PollOf(p, name, events[..|events| - 1]), events[|events| - 1])
  }

  lemma PollAppend(p: Params, name: string, events: seq<Event>, e: Event)
    ensures PollOf(p, name, events + [e]) == Advance(p, name, PollOf(p, name, events), e)
    ensures Lookups(events + [e]) == Lookups(events) + if e.ServersListed? then 1 else 0
  { }

  // The single steps.
  lemma RestStep(p: Params, name: string)
    ensures Advance(p, name, Begun, Waited(p.grace)) == Rested
    ensures Advance(p, name, Begun, Cut(p.grace)) == Over(Err(CtxErr))
  { }

  lemma StartStep(p: Params, name: string, at: int)
    ensures Advance(p, name, Rested, ClockRead(at)) == Asking(name, at + p.recoveryMax)
  { }

  lemma CheckStep(p: Params, name: string, deadline: int, at: int)
    ensures Advance(p, name, Asked(deadline), ClockRead(at)) ==
            if at > deadline then Over(Err(TimedOut)) else Pausing(deadline)
  { }

  lemma PauseStep(p: Params, name: string, deadline: int)
    ensures Advance(p, name, Pausing(deadline), Waited(p.pollEvery)) == Asking(name, deadline)
    ensures Advance(p, name, Pausing(deadline), Cut(p.pollEvery)) == Over(Err(CtxErr))
  { }

  lemma LookupStep(r: Result<Server, ApiError>, deadline: int)
    ensures AfterLookup(r, deadline) == if r.Ok? || IsClientError(r.error) then Over(r) else Asked(deadline)
  { }

  // One lookup of the recovery loop.
  method PollOnce(api: Api, p: Params, name: string, ghost from: nat, ghost deadline: int)
    returns (r: Result<Server, ApiError>)
    requires from <= |api.trace| && PollOf(p, name, api.trace[from..]) == Asking(name, deadline)
    modifies api
    ensures old(api.trace) <= api.trace && api.now >= old(api.now)
    ensures PollOf(p, name, api.trace[from..]) == AfterLookup(r, deadline)
    ensures Lookups(api.trace[from..]) == old(Lookups(api.trace[from..])) + if name == "" then 0 else 1
  {
    hide PollOf, Lookups;
    ghost var before := api.trace[from..];
    r := FindServerByName(api, name);
    if name != "" {
      ghost var a :| api.trace == old(api.trace) + [ServersListed(a)] && r == Lookup(a, name);
      assert api.trace[from..] == before + [ServersListed(a)];
      PollAppend(p, name, before, ServersListed(a));
    }
  }

  method PollWait(api: Api, p: Params, name: string, d: int, ghost from: nat) returns (waited: bool)
    requires from <= |api.trace|
    modifies api
    ensures old(api.trace) <= api.trace && api.now >= old(api.now) + if waited then Max(0, d) else 0
    ensures PollOf(p, name, api.trace[from..]) ==
            Advance(p, name, old(PollOf(p, name, api.trace[from..])), if waited then Waited(d) else Cut(d))
    ensures Lookups(api.trace[from..]) == old(Lookups(api.trace[from..]))
  {
    hide PollOf, Lookups, Advance;
    ghost var before := api.trace[from..];
    waited := api.Wait(d);
    ghost var e := if waited then Waited(d) else Cut(d);
    assert api.trace[from..] == before + [e];
    PollAppend(p, name, before, e);
  }

  method PollClock(api: Api, p: Params, name: string, ghost from: nat) returns (t: int)
    requires from <= |api.trace|
    modifies api
    ensures old(api.trace) <= api.trace && old(api.now) <= t <= api.now
    ensures PollOf(p, name, api.trace[from..]) ==
            Advance(p, name, old(PollOf(p, name, api.trace[from..])), ClockRead(t))
    ensures Lookups(api.trace[from..]) == old(Lookups(api.trace[from..]))
  {
    hide PollOf, Lookups, Advance;
    ghost var before := api.trace[from..];
    t := api.ReadClock();
    assert api.trace[from..] == before + [ClockRead(t)];
    PollAppend(p, name, before, ClockRead(t));
  }

  // recoverByName. It follows the poll's protocol to its end, so it stops at the first reason
  // to stop and not before; and however the listings answer and however slow they are, it
  // lists the servers at most floor(recoveryMax / pollEvery) + 2 times.
  method RecoverByName(api: Api, p: Params, name: string) returns (r: Result<Server, ApiError>)
    requires ValidParams(p)
    modifies api
    ensures old(api.trace) <= api.trace && api.now >= old(api.now)
    ensures PollOf(p, name, api.trace[|old(api.trace)|..]) == Over(r)
    ensures Lookups(api.trace[|old(api.trace)|..]) <= MaxLookups(p)
  {
    ghost var from := |api.trace|;
    ghost var passes := 0;
    assert PollOf(p, name, api.trace[from..]) == Begun && Lookups(api.trace[from..]) == 0;
    hide PollOf, Lookups, OnSchedule, MaxLookups, FirstNamed, Advance, AfterLookup, Asking;
    RestStep(p, name);
    OnTime(p, api.now, api.now);
    PassBudget(p, api.now, 0, api.now);
    var waited := PollWait(api, p, name, p.grace, from);
    if !waited {
      return Err(CtxErr);
    }
    var start := PollClock(api, p, name, from);
    StartStep(p, name, start);
    var deadline := start + p.recoveryMax;
    OnTime(p, start, api.now);
    while true
      invariant from == |old(api.trace)| && old(api.trace) <= api.trace && api.now >= old(api.now)
      invariant PollOf(p, name, api.trace[from..]) == Asking(name, deadline)
      invariant Lookups(api.trace[from..]) <= passes && OnSchedule(p, start, passes, api.now)
      decreases start + p.recoveryMax + p.pollEvery - api.now
    {
      ghost var begun := api.now;
      PassBudget(p, start, passes, begun);
      var over := PollRound(api, p, name, from, deadline);
      if over.Some? {
        return over.value;
      }
      NextPass(p, start, passes, begun, api.now);
      passes := passes + 1;
    }
  }

  // One round of the poll: look up, check the clock, wait. None: go on.
  method PollRound(api: Api, p: Params, name: string, ghost from: nat, deadline: int)
    returns (over: Option<Result<Server, ApiError>>)
    requires ValidParams(p) && from <= |api.trace| && PollOf(p, name, api.trace[from..]) == Asking(name, deadline)
    modifies api
    ensures old(api.trace) <= api.trace && api.now >= old(api.now)
    ensures PollOf(p, name, api.trace[from..]) == if over.Some? then Over(over.value) else Asking(name, deadline)
    ensures over.None? ==> old(api.now) <= deadline && api.now >= old(api.now) + p.pollEvery
    ensures Lookups(api.trace[from..]) <= old(Lookups(api.trace[from..])) + 1
  {
    hide PollOf, Lookups, FirstNamed, Advance, AfterLookup, Asking;
    var r := PollOnce(api, p, name, from, deadline);
    LookupStep(r, deadline);
    if r.Ok? {
      return Some(r);
    }
    if IsClientError(r.error) {
      return Some(r);
    }
    var checked := PollClock(api, p, name, from);
    CheckStep(p, name, deadline, checked);
    if checked > deadline {
      return Some(Err(TimedOut));
    }
    var waited := PollWait(api, p, name, p.pollEvery, from);
    PauseStep(p, name, deadline);
    over := if waited then None else Some(Err(CtxErr));
  }

  // So many passes of the poll are over: each took a whole interval, and none of them began
  // after the deadline.
  predicate OnSchedule(p: Params, start: int, passes: nat, now: int) {
    now >= start + passes * p.pollEvery && (passes > 0 ==> (passes - 1) * p.pollEvery <= p.recoveryMax)
  }

  lemma OnTime(p: Params, start: int, now: int)
    requires now >= start
    ensures OnSchedule(p, start, 0, now)
  { }

  lemma PassBudget(p: Params, start: int, passes: nat, now: int)
    requires ValidParams(p) && OnSchedule(p, start, passes, now)
    ensures passes + 1 <= MaxLookups(p)
  {
    if passes > 0 {
      QuotientBound(passes - 1, p.pollEvery, p.recoveryMax);
    }
  }

  lemma NextPass(p: Params, start: int, passes: nat, begun: int, now: int)
    requires ValidParams(p) && OnSchedule(p, start, passes, begun)
    requires begun <= start + p.recoveryMax && now >= begun + p.pollEvery
    ensures OnSchedule(p, start, passes + 1, now)
  { }

  // ---- What a poll says by the protocol ----

  // What a stretch of recovery leaves in the trace: no request is ever sent again, and the
  // server is shown in it exactly when `found` says so.
  ghost predicate QuietEvents(events: seq<Event>, name: string, found: Option<Server>) {
    && (forall k :: 0 <= k < |events| ==> !events[k].Request?)
    && (found.None? ==> name == "" || !ShownIn(events, name))
    && (found.Some? ==> name != "" && exists k :: 0 <= k < |events| && Shows(events[k], name, found.value))
  }

  lemma QuietAppend(events: seq<Event>, e: Event, name: string, found: Option<Server>)
    requires QuietEvents(events, name, None) && !e.Request?
    requires found.Some? ==> name != "" && Shows(e, name, found.value)
    requires found.None? && name != "" ==> forall s :: !Shows(e, name, s)
    ensures QuietEvents(events + [e], name, found)
  {
    var more := events + [e];
    if found.Some? {
      assert Shows(more[|events|], name, found.value);
    } else if name != "" {
      forall k, s | 0 <= k < |more|
        ensures !Shows(more[k], name, s)
      {
        if k < |events| {
          assert more[k] == events[k];
          assert !(exists k, server :: 0 <= k < |events| && Shows(events[k], name, server));
        }
      }
    }
  }

  lemma {:induction false} PollFacts(p: Params, name: string, events: seq<Event>)
    requires !PollOf(p, name, events).Illegal?
    ensures
      var s := PollOf(p, name, events);
      && QuietEvents(events, name, if s.Over? && s.result.Ok? then Some(s.result.value) else None)
      && (events != [] ==> events[0] == Waited(p.grace) || events[0] == Cut(p.grace))
      && (s.Begun? <==> events == []) && (s.Rested? ==> |events| == 1) && (s.Ready? ==> name != "")
      && (s.Ready? || s.Asked? || s.Pausing? ==>
            |events| > 1 && events[1].ClockRead? && s.deadline == events[1].at + p.recoveryMax)
  {
    if events != [] {
      var n := |events| - 1;
      PollFacts(p, name, events[..n]);
      var s := PollOf(p, name, events);
      hide QuietEvents, FirstNamed;
      assert events == events[..n] + [events[n]];
      QuietAppend(events[..n], events[n], name, if s.Over? && s.result.Ok? then Some(s.result.value) else None);
    }
  }

  // What ends the poll: a cancelled wait, a listing that shows the server or is a 4xx error,
  // or a clock past the deadline. The clock is first read to set the deadline.
  ghost predicate StopsAt(p: Params, name: string, events: seq<Event>, k: nat) {
    && k < |events|
    && match events[k]
       case Cut(_) => true
       case ServersListed(a) => Lookup(a, name).Ok? || IsClientError(Lookup(a, name).error)
       case ClockRead(at) => k > 1 && events[1].ClockRead? && at > events[1].at + p.recoveryMax
       case _ => false
  }

  // The poll stops at the first reason and at no other event; what it answers is that reason.
  lemma GivesUpForAReason(p: Params, name: string, events: seq<Event>)
    requires PollOf(p, name, events).Over?
    ensures events != [] && forall k: nat :: k < |events| ==> (StopsAt(p, name, events, k) <==> k == |events| - 1)
    ensures PollOf(p, name, events).result ==
            match events[|events| - 1]
            case ServersListed(a) => Lookup(a, name)
            case Cut(_) => Err(CtxErr)
            case _ => Err(TimedOut)
  {
    var n := |events| - 1;
    forall k: nat | k < |events|
      ensures StopsAt(p, name, events, k) <==> k == n
    {
      PollPrefix(p, name, events, k);
      StopsByStage(p, name, events, k);
    }
    PollFacts(p, name, events[..n]);
    hide FirstNamed, QuietEvents, Lookup, StopsAt;
  }

  // The protocol is over after an event exactly when that event is a reason.
  lemma StopsByStage(p: Params, name: string, events: seq<Event>, k: nat)
    requires k < |events| && !PollOf(p, name, events[..k]).Illegal? && !PollOf(p, name, events[..k]).Over?
    requires !Advance(p, name, PollOf(p, name, events[..k]), events[k]).Illegal?
    ensures StopsAt(p, name, events, k) <==> Advance(p, name, PollOf(p, name, events[..k]), events[k]).Over?
  {
    hide FirstNamed, QuietEvents, Lookup, PollOf;
    PollFacts(p, name, events[..k]);
  }

  // WHICH LISTINGS END THE POLL, by their HTTP codes and contents.
  predicate ShowsName(a: Result<seq<Server>, ApiError>, name: string) {
    a.Ok? && exists j :: 0 <= j < |a.value| && a.value[j].name == name
  }

  predicate FailsWith4xx(a: Result<seq<Server>, ApiError>) {
    a.Err? && a.error.Http? && (a.error.code == 400 || 400 < a.error.code <= 499)
  }

  // A listing that fails with a 4xx code is the last event and its error is the answer; one
  // that shows the name is the last event and its first server of that name is the answer.
  // After any other listing, failed with another code or without one or not showing the
  // name, the poll goes on to read the clock.
  lemma ListingsThatEnd(p: Params, name: string, events: seq<Event>, k: nat)
    requires PollOf(p, name, events).Over? && k < |events| && events[k].ServersListed?
    ensures FailsWith4xx(events[k].answer) ==>
              k == |events| - 1 && PollOf(p, name, events).result == Err(events[k].answer.error)
    ensures ShowsName(events[k].answer, name) ==>
              && k == |events| - 1
              && exists j: nat :: FirstAt(events[k].answer.value, name, j)
                                  && PollOf(p, name, events).result == Ok(events[k].answer.value[j])
    ensures !FailsWith4xx(events[k].answer) && !ShowsName(events[k].answer, name) ==>
              k < |events| - 1 && events[k + 1].ClockRead?
  {
    GivesUpForAReason(p, name, events);
    PollPrefix(p, name, events, k);
    if k + 1 < |events| {
      PollPrefix(p, name, events, k + 1);
    } else {
      assert events[..k + 1] == events;
    }
    if events[k].answer.Ok? {
      FirstNamedIsFirst(events[k].answer.value, name);
    }
    hide PollOf, FirstNamed, QuietEvents;
  }

  // The pace of the poll: after the deadline is set, each listing is followed by a clock
  // reading, each reading within the deadline by a pause of exactly pollEvery, and each pause
  // slept to its end by the next listing.
  lemma PollPace(p: Params, name: string, events: seq<Event>, k: nat)
    requires name != "" && PollOf(p, name, events).Over? && k + 1 < |events|
    ensures
      var e := events[k + 1];
      match events[k]
      case ServersListed(_) => e.ClockRead?
      case ClockRead(_) =>
        if k == 1 then e.ServersListed? else e == Waited(p.pollEvery) || e == Cut(p.pollEvery)
      case Waited(d) => if k == 0 then d == p.grace && e.ClockRead? else d == p.pollEvery && e.ServersListed?
      case _ => false
  {
    PollPrefix(p, name, events, k);
    PollPrefix(p, name, events, k + 1);
    PollFacts(p, name, events[..k]);
    assert k > 1 ==> events[..k][1] == events[1];
    hide PollOf, FirstNamed, QuietEvents, Lookup;
  }

  lemma {:induction false} PollPrefix(p: Params, name: string, events: seq<Event>, k: nat)
    requires k < |events| && !PollOf(p, name, events).Illegal?
    ensures !PollOf(p, name, events[..k]).Illegal? && !PollOf(p, name, events[..k]).Over?
    ensures PollOf(p, name, events[..k + 1]) == Advance(p, name, PollOf(p, name, events[..k]), events[k])
    ensures !PollOf(p, name, events[..k + 1]).Illegal?
    ensures if k + 1 == |events| then events[..k + 1] == events else !PollOf(p, name, events[..k + 1]).Over?
    decreases |events| - k
  {
    assert events[..k + 1][..k] == events[..k];
    if k + 1 == |events| {
      assert events[..k + 1] == events;
    } else {
      PollPrefix(p, name, events, k + 1);
    }
  }

  datatype Created = Queued(commandID: string) | Recovered(server: Server) | Failed(error: ApiError)

  // CREATE ONCE. The create request is sent exactly once if the body could be built and not
  // at all otherwise. An answer of the API is final. Only without one does recovery run: it
  // reports a server exactly when a later listing showed one of that very name.
  method CreateServer(api: Api, p: Params, name: string, bodyOk: bool) returns (r: Created, ghost sent: Option<Outcome>)
    requires ValidParams(p)
    modifies api
    ensures api.now >= old(api.now) && (sent.Some? <==> bodyOk)
    ensures !bodyOk ==> api.trace == old(api.trace) && r == Failed(MarshalErr)
    ensures bodyOk ==> exists rest :: api.trace == old(api.trace) + [Request(CreateCall(name), sent.value)] + rest
                         && CreateOutcome(p, name, sent.value, rest, r)
  {
    sent := None;
    if !bodyOk {
      return Failed(MarshalErr), sent;
    }
    var answer, outs, cut := Do(api, CreateCall(name), false, p.maxRetries, p.retryBase);
    sent := Some(outs[0]);
    SingleAttempt(CreateCall(name), p.retryBase, outs);
    assert api.trace == old(api.trace) + [Request(CreateCall(name), sent.value)] + [];
    match answer {
      case Body(id) =>
        r := if id.Some? then Queued(id.value) else Failed(DecodeErr);
        assert CreateOutcome(p, name, sent.value, [], r);
      case Fail(e) =>
        if !IsTransportError(e) {
          assert CreateOutcome(p, name, sent.value, [], Failed(e));
          return Failed(e), sent;
        }
        ghost var before := api.trace;
        var found := RecoverByName(api, p, name);
        ghost var rest := api.trace[|before|..];
        r := if found.Ok? then Recovered(found.value) else Failed(e);
        assert api.trace == before + rest && CreateOutcome(p, name, sent.value, rest, r);
    }
  }

  lemma SingleAttempt(call: Call, base: int, outs: seq<Outcome>)
    requires |outs| == 1
    ensures DoTrace(call, base, outs) == [Request(call, outs[0])]
  { }

  // What follows the attempt: nothing if the API answered, and a whole recovery poll if not.
  ghost predicate CreateOutcome(p: Params, name: string, o: Outcome, rest: seq<Event>, r: Created)
    requires ValidParams(p)
  {
    match o
    case Success(id) => rest == [] && r == (if id.Some? then Queued(id.value) else Failed(DecodeErr))
    case Status(code) => rest == [] && r == Failed(Http(code))
    case _ =>
      var s := PollOf(p, name, rest);
      && s.Over? && Lookups(rest) <= MaxLookups(p)
      && r == if s.result.Ok? then Recovered(s.result.value)
              else Failed(if o.Transport? then TransportErr else BuildErr)
  }

  // RECOVERY IS SOUND. After the attempt no request is sent; a server is reported recovered
  // exactly when the API gave no answer and a later listing showed one of that very name.
  lemma RecoveryIsSound(p: Params, name: string, o: Outcome, rest: seq<Event>, r: Created)
    requires ValidParams(p) && CreateOutcome(p, name, o, rest, r)
    ensures forall k :: 0 <= k < |rest| ==> !rest[k].Request?
    ensures r.Recovered? <==> name != "" && ShownIn(rest, name)
    ensures r.Recovered? ==> r.server.name == name && exists k :: 0 <= k < |rest| && Shows(rest[k], name, r.server)
  {
    if o.Transport? || o.Unbuildable? {
      PollFacts(p, name, rest);
      if r.Recovered? {
        var k :| 0 <= k < |rest| && Shows(rest[k], name, r.server);
        FirstNamedIsFirst(rest[k].answer.value, name);
      }
    }
  }

  // RECOVERY IS ENTERED exactly when the attempt failed in transport or could not be built:
  // its first wait is then in the trace, cancelled or not.
  lemma RecoveryIsEntered(p: Params, name: string, o: Outcome, rest: seq<Event>, r: Created)
    requires ValidParams(p) && CreateOutcome(p, name, o, rest, r)
    ensures (o.Transport? || o.Unbuildable?) <==>
            rest != [] && (rest[0] == Waited(p.grace) || rest[0] == Cut(p.grace))
    ensures (o.Success? || o.Status?) <==> rest == []
  {
    if o.Transport? || o.Unbuildable? {
      PollFacts(p, name, rest);
    }
  }

  // The documented condition, recovery after a transport failure only, does not hold: a
  // create that could not be built, and so never left the client, polls for the server all
  // the same, and reports one of that name as recovered if there happens to be one.
  lemma UnbuildableIsRecovered(p: Params, server: Server, at: int) returns (rest: seq<Event>)
    requires ValidParams(p) && server.name != ""
    ensures rest == [Waited(p.grace), ClockRead(at), ServersListed(Ok([server]))]
    ensures CreateOutcome(p, server.name, Unbuildable, rest, Recovered(server))
  {
    var waited, read, listed := Waited(p.grace), ClockRead(at), ServersListed(Ok([server]));
    PollAppend(p, server.name, [], waited);
    PollAppend(p, server.name, [waited], read);
    PollAppend(p, server.name, [waited, read], listed);
    rest := [waited, read, listed];
    assert [] + [waited] == [waited] && [waited] + [read] == [waited, read] && [waited, read] + [listed] == rest;
    assert FirstNamed([server], server.name) == Some(server);
    assert MaxLookups(p) >= 2;
  }
}
