/** The tracker of creations in flight: a map collected lazily when it is read or added to.
    Proved to answer as if it kept the whole history and nothing else. */
module Tracker {
  import opened Common

  datatype Entry = Entry(pool: string, createdAt: int)

  predicate Live(e: Entry, now: int, ttl: int) {
    now - e.createdAt <= ttl
  }

  function Gc(entries: map<string, Entry>, now: int, ttl: int): map<string, Entry> {
    map k | k in entries && Live(entries[k], now, ttl) :: entries[k]
  }

  function OfPool(entries: map<string, Entry>, pool: string): set<string> {
    set k | k in entries && entries[k].pool == pool
  }

  // A clock reading is an argument: Add reads the clock once to collect and once more to
  // stamp the entry.
  class PendingTracker {
    const ttl: int
    var entries: map<string, Entry>

    constructor (ttl: int)
      ensures this.ttl == ttl && entries == map[]
    {
      this.ttl := ttl;
      entries := map[];
    }

    method GcLocked(now: int)
      modifies this
      ensures entries == Gc(old(entries), now, ttl)
    {
      var rest := entries.Keys;
      while rest != {}
        invariant rest <= entries.Keys <= old(entries).Keys
        invariant forall k :: k in entries ==> entries[k] == old(entries)[k]
        invariant forall k :: k in old(entries) && k !in rest ==> (k in entries <==> Live(old(entries)[k], now, ttl))
        decreases |rest|
      {
        var k :| k in rest;
        rest := rest - {k};
        if now - entries[k].createdAt > ttl {
          entries := entries - {k};
        }
      }
    }

    method Add(pool: string, nodeName: string, gcAt: int, addAt: int) returns (ok: bool)
      modifies this
      ensures ok == (nodeName !in Gc(old(entries), gcAt, ttl))
      ensures entries == After(old(entries), Op.Add(pool, nodeName, gcAt, addAt), ttl)
    {
      GcLocked(gcAt);
      if nodeName in entries {
        return false;
      }
      entries := entries[nodeName := Entry(pool, addAt)];
      ok := true;
    }

    method Remove(nodeName: string)
      modifies this
      ensures entries == After(old(entries), Op.Remove(nodeName), ttl)
    {
      entries := entries - {nodeName};
    }

    method Count(pool: string, at: int) returns (n: nat)
      modifies this
      ensures n == |OfPool(Gc(old(entries), at, ttl), pool)|
      ensures entries == After(old(entries), Op.Count(pool, at), ttl)
    {
      GcLocked(at);
      n := CountIn(entries, pool);
    }
  }

  method CountIn(entries: map<string, Entry>, pool: string) returns (n: nat)
    ensures n == |OfPool(entries, pool)|
  {
    n := 0;
    var rest := entries.Keys;
    ghost var all := OfPool(entries, pool);
    NoneOf(all, rest);
    while rest != {}
      invariant rest <= entries.Keys && n == |all - rest|
      decreases |rest|
    {
      var k :| k in rest;
      OneLess(all, rest, k);
      if entries[k].pool == pool {
        n := n + 1;
      }
      rest := rest - {k};
    }
    assert all - {} == all;
  }

  lemma OneLess(all: set<string>, rest: set<string>, k: string)
    requires k in rest
    ensures |all - (rest - {k})| == |all - rest| + if k in all then 1 else 0
  {
    assert all - (rest - {k}) == all - rest + if k in all then {k} else {};
  }

  lemma NoneOf(all: set<string>, rest: set<string>)
    requires all <= rest
    ensures |all - rest| == 0
  {
    assert all - rest == {};
  }

  // ---- Histories ----

  datatype Op =
    | Add(pool: string, name: string, gcAt: int, addAt: int)
    | Remove(name: string)
    | Count(pool: string, at: int)

  function After(entries: map<string, Entry>, op: Op, ttl: int): map<string, Entry> {
    match op
    case Add(pool, name, gcAt, addAt) =>
      var kept := Gc(entries, gcAt, ttl);
      if name in kept then kept else kept[name := Entry(pool, addAt)]
    case Remove(name) => map k | k in entries && k != name :: entries[k]
    case Count(_, at) => Gc(entries, at, ttl)
  }

  function Run(ops: seq<Op>, ttl: int): map<string, Entry> {
    if ops == [] then map[] else After(Run(ops[..|ops| - 1], ttl), ops[|ops| - 1], ttl)
  }

  // The clock only moves forward, and `now` is no earlier than the last reading.
  predicate Ordered(ops: seq<Op>, now: int) {
    ops == [] ||
    var init, op := ops[..|ops| - 1], ops[|ops| - 1];
    match op
    case Add(_, _, gcAt, addAt) => gcAt <= addAt <= now && Ordered(init, gcAt)
    case Remove(_) => Ordered(init, now)
    case Count(_, at) => at <= now && Ordered(init, at)
  }

  // The history specification: which names are in flight, from the operations alone.
  // LastAdd is the position of the last successful Add of a name.
  ghost function LastAdd(ops: seq<Op>, ttl: int, name: string): (i: Option<nat>)
    ensures i.Some? ==> i.value < |ops| && ops[i.value].Add? && ops[i.value].name == name
    decreases |ops|, 0
  {
    if ops == [] then None
    else
      var n := |ops| - 1;
      if ops[n].Add? && ops[n].name == name && !InFlight(ops[..n], ttl, name, ops[n].gcAt) then Some(n)
      else LastAdd(ops[..n], ttl, name)
  }

  ghost predicate InFlight(ops: seq<Op>, ttl: int, name: string, now: int)
    decreases |ops|, 1
  {
    var i := LastAdd(ops, ttl, name);
    && i.Some?
    && (forall j :: i.value < j < |ops| ==> ops[j] != Remove(name))
    && now - ops[i.value].addAt <= ttl
  }

  // THE LAZY MAP REFINES THE HISTORY. At any time not before the last clock reading, a name
  // is tracked and unexpired exactly when the history says it is in flight, and its entry is
  // the one of its last successful Add.
  lemma {:induction false} RefinesHistory(ops: seq<Op>, ttl: int, name: string, now: int)
    requires Ordered(ops, now)
    ensures InFlight(ops, ttl, name, now) <==>
            name in Run(ops, ttl) && Live(Run(ops, ttl)[name], now, ttl)
    ensures InFlight(ops, ttl, name, now) ==>
              var op := ops[LastAdd(ops, ttl, name).value];
              Run(ops, ttl)[name] == Entry(op.pool, op.addAt)
    decreases |ops|
  {
    if ops != [] {
      var n := |ops| - 1;
      var init, op := ops[..n], ops[n];
      OrderedLater(init, if op.Add? then op.gcAt else if op.Count? then op.at else now, now);
      RefinesHistory(init, ttl, name, now);
      match op
      case Add(_, added, gcAt, _) => RefinesHistory(init, ttl, name, gcAt);
      case Count(_, at) => RefinesHistory(init, ttl, name, at);
      case Remove(_) =>
    }
  }

  lemma {:induction false} OrderedLater(ops: seq<Op>, now: int, later: int)
    requires Ordered(ops, now) && now <= later
    ensures Ordered(ops, later)
  {
    if ops != [] && ops[|ops| - 1].Remove? {
      OrderedLater(ops[..|ops| - 1], now, later);
    }
  }

  // What the methods answer, in terms of the history alone.
  lemma AnswersFromHistory(ops: seq<Op>, ttl: int, name: string, pool: string, now: int)
    requires Ordered(ops, now)
    ensures name in Gc(Run(ops, ttl), now, ttl) <==> InFlight(ops, ttl, name, now)
    ensures name in OfPool(Gc(Run(ops, ttl), now, ttl), pool) <==>
            InFlight(ops, ttl, name, now) && ops[LastAdd(ops, ttl, name).value].pool == pool
  {
    RefinesHistory(ops, ttl, name, now);
  }

  function CountsOf(entries: map<string, Entry>, pools: seq<string>): (cs: seq<int>)
    ensures |cs| == |pools|
  {
    seq(|pools|, i requires 0 <= i < |pools| => |OfPool(entries, pools[i])|)
  }

  predicate Distinct(pools: seq<string>) {
    forall i, j :: 0 <= i < j < |pools| ==> pools[i] != pools[j]
  }

  function InPools(entries: map<string, Entry>, pools: seq<string>): set<string> {
    set k | k in entries && entries[k].pool in pools
  }

  lemma InPoolsSplit(entries: map<string, Entry>, pools: seq<string>, last: string)
    ensures InPools(entries, pools + [last]) == InPools(entries, pools) + OfPool(entries, last)
    ensures last !in pools ==> InPools(entries, pools) !! OfPool(entries, last)
  { }

  lemma {:induction false} CountsAddUp(entries: map<string, Entry>, pools: seq<string>)
    requires Distinct(pools)
    ensures Sum(CountsOf(entries, pools)) == |InPools(entries, pools)|
  {
    if pools == [] {
      assert InPools(entries, pools) == {};
    } else {
      var n := |pools| - 1;
      CountsAddUp(entries, pools[..n]);
      CountsSplit(entries, pools);
      assert pools == pools[..n] + [pools[n]];
      InPoolsSplit(entries, pools[..n], pools[n]);
      hide InPools, OfPool, CountsOf;
    }
  }

  lemma CountsSplit(entries: map<string, Entry>, pools: seq<string>)
    requires pools != []
    ensures
      var n := |pools| - 1;
      Sum(CountsOf(entries, pools)) == Sum(CountsOf(entries, pools[..n])) + |OfPool(entries, pools[n])|
  {
    hide OfPool;
    var n := |pools| - 1;
    assert CountsOf(entries, pools)[..n] == CountsOf(entries, pools[..n]);
  }

  // CONSERVATION. Counting every pool that was ever added to gives, together, exactly the
  // number of names in flight.
  lemma CountsCoverInFlight(ops: seq<Op>, ttl: int, now: int, pools: seq<string>)
    requires Ordered(ops, now) && Distinct(pools)
    requires forall op :: op in ops && op.Add? ==> op.pool in pools
    ensures
      var kept := Gc(Run(ops, ttl), now, ttl);
      && Sum(CountsOf(kept, pools)) == |kept.Keys|
      && forall name :: name in kept.Keys <==> InFlight(ops, ttl, name, now)
  {
    var kept := Gc(Run(ops, ttl), now, ttl);
    CountsAddUp(kept, pools);
    forall name
      ensures name in kept.Keys <==> InFlight(ops, ttl, name, now)
      ensures name in kept ==> kept[name].pool in pools
    {
      RefinesHistory(ops, ttl, name, now);
      if name in kept {
        assert ops[LastAdd(ops, ttl, name).value] in ops;
      }
    }
    assert kept.Keys == InPools(kept, pools);
  }
}
