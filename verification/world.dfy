/** The outside world: Kubernetes, Kamatera, and the clock. Every call may answer anything,
    takes any amount of time, and is recorded in the trace. */
module World {
  import opened Common
  import opened PoolMatch

  datatype EvictOutcome = EvictOk | Blocked | Gone | EvictFailed

  datatype FindOutcome = Found(id: string) | Absent | FindFailed

  datatype Event =
    | ClockRead(at: int)
    | Listed(node: string, pods: Option<seq<Pod>>)
    | Cordoned(node: string, ok: bool)
    | Evict(pod: Pod, outcome: EvictOutcome)
    | Slept(d: int)
    | Cut(d: int)
    | Find(node: string, found: FindOutcome)
    | Terminate(id: string, ok: bool)
    | WaitTerminate(ok: bool)
    | Delete(node: string, ok: bool)

  class World {
    var now: int
    var trace: seq<Event>

    constructor (now: int)
      ensures this.now == now && trace == []
    {
      this.now, trace := now, [];
    }

    method Record(e: Event)
      modifies this
      ensures trace == old(trace) + [e] && now >= old(now)
    {
      var late: int := *;
      now := now + Max(0, late);
      trace := trace + [e];
    }

    method Now() returns (t: int)
      modifies this
      ensures trace == old(trace) + [ClockRead(t)] && old(now) <= t <= now
    {
      var late: int := *;
      now := now + Max(0, late);
      t := now;
      Record(ClockRead(t));
    }

    method ListPodsOnNode(node: string) returns (pods: Option<seq<Pod>>)
      modifies this
      ensures trace == old(trace) + [Listed(node, pods)] && now >= old(now)
    {
      pods := *;
      Record(Listed(node, pods));
    }

    method Cordon(node: string) returns (ok: bool)
      modifies this
      ensures trace == old(trace) + [Cordoned(node, ok)] && now >= old(now)
    {
      ok := *;
      Record(Cordoned(node, ok));
    }

    method EvictPod(pod: Pod) returns (outcome: EvictOutcome)
      modifies this
      ensures trace == old(trace) + [Evict(pod, outcome)] && now >= old(now)
    {
      outcome := *;
      Record(Evict(pod, outcome));
    }

    // Sleeps for d unless the context is cancelled first.
    method Sleep(d: nat) returns (slept: bool)
      modifies this
      ensures trace == old(trace) + [if slept then Slept(d) else Cut(d)]
      ensures now >= old(now) + if slept then d else 0
    {
      slept := *;
      if slept {
        now := now + d;
      }
      Record(if slept then Slept(d) else Cut(d));
    }

    method FindServer(node: string) returns (found: FindOutcome)
      modifies this
      ensures trace == old(trace) + [Find(node, found)] && now >= old(now)
    {
      found := *;
      Record(Find(node, found));
    }

    method TerminateServer(id: string) returns (ok: bool)
      modifies this
      ensures trace == old(trace) + [Terminate(id, ok)] && now >= old(now)
    {
      ok := *;
      Record(Terminate(id, ok));
    }

    method AwaitTermination() returns (ok: bool)
      modifies this
      ensures trace == old(trace) + [WaitTerminate(ok)] && now >= old(now)
    {
      ok := *;
      Record(WaitTerminate(ok));
    }

    method DeleteNode(node: string) returns (ok: bool)
      modifies this
      ensures trace == old(trace) + [Delete(node, ok)] && now >= old(now)
    {
      ok := *;
      Record(Delete(node, ok));
    }
  }
}
