/** Which pool a pod or a node belongs to, and the per-pool counts built on that. */
module PoolMatch {
  import opened Common

  type Labels = map<string, string>

  datatype Condition = Condition(kind: string, status: string, reason: string, message: string)

  datatype Pod = Pod(namespace: string, name: string, phase: string, conditions: seq<Condition>,
                     nodeSelector: Labels, ownerKinds: seq<string>, annotations: Labels, terminating: bool)

  datatype Node = Node(name: string, labels: Labels, created: Option<int>)

  // A parsed selector is any predicate on label sets.
  datatype Pool = Pool(name: string, minNodes: int, maxNodes: int, selector: Option<Labels -> bool>)

  // What Validate guarantees of a loaded configuration.
  predicate ValidPools(pools: seq<Pool>) {
    && (forall i :: 0 <= i < |pools| ==>
          pools[i].name != "" && 0 <= pools[i].minNodes <= pools[i].maxNodes && pools[i].selector.Some?)
    && (forall i, j :: 0 <= i < j < |pools| ==> pools[i].name != pools[j].name)
  }

  predicate OccursAt(text: string, part: string, i: nat) {
    i + |part| <= |text| && text[i..i + |part|] == part
  }

  predicate Contains(text: string, part: string) {
    exists i: nat :: i <= |text| && OccursAt(text, part, i)
  }

  predicate SaysInsufficient(c: Condition) {
    && c.kind == "PodScheduled" && c.status == "False" && c.reason == "Unschedulable"
    && (Contains(c.message, "Insufficient cpu") || Contains(c.message, "Insufficient memory")
        || Contains(c.message, "Insufficient ephemeral-storage"))
  }

  predicate IsPendingForResources(p: Pod) {
    p.phase == "Pending" && exists c :: c in p.conditions && SaysInsufficient(c)
  }

  predicate Matches(pool: Pool, wanted: Labels) {
    pool.selector.Some? && pool.selector.value(wanted)
  }

  // The first pool that matches; a pod without a nodeSelector belongs to none.
  function PoolForPod(p: Pod, pools: seq<Pool>): (r: Option<nat>)
    ensures r.Some? ==> p.nodeSelector != map[] && r.value < |pools|
                        && pools[r.value].selector.Some? && pools[r.value].selector.value(p.nodeSelector)
                        && forall j :: 0 <= j < r.value && pools[j].selector.Some? ==>
                             !pools[j].selector.value(p.nodeSelector)
    ensures r.None? <==> p.nodeSelector == map[] ||
                         forall j :: 0 <= j < |pools| && pools[j].selector.Some? ==>
                           !pools[j].selector.value(p.nodeSelector)
  {
    if |p.nodeSelector| == 0 then None else FirstMatch(p.nodeSelector, pools, 0)
  }

  function FirstMatch(wanted: Labels, pools: seq<Pool>, from: nat): (r: Option<nat>)
    requires from <= |pools|
    ensures r.Some? ==> from <= r.value < |pools| && Matches(pools[r.value], wanted)
                        && forall j :: from <= j < r.value ==> !Matches(pools[j], wanted)
    ensures r.None? <==> forall j :: from <= j < |pools| ==> !Matches(pools[j], wanted)
    decreases |pools| - from
  {
    if from == |pools| then None
    else if Matches(pools[from], wanted) then Some(from)
    else FirstMatch(wanted, pools, from + 1)
  }

  function PoolByName(pools: seq<Pool>, name: string, from: nat := 0): (r: Option<nat>)
    requires from <= |pools|
    ensures r.Some? ==> from <= r.value < |pools| && pools[r.value].name == name
                        && forall j :: from <= j < r.value ==> pools[j].name != name
    ensures r.None? <==> forall j :: from <= j < |pools| ==> pools[j].name != name
    decreases |pools| - from
  {
    if from == |pools| then None
    else if pools[from].name == name then Some(from)
    else PoolByName(pools, name, from + 1)
  }

  function PoolForNode(n: Node, pools: seq<Pool>): (r: Option<nat>)
    ensures r.Some? ==> r.value < |pools| && NodeIn(n, pools[r.value].name) && pools[r.value].name != ""
    ensures r.None? ==> forall j :: 0 <= j < |pools| && pools[j].name != "" ==> !NodeIn(n, pools[j].name)
    ensures r.Some? ==> "pool" in n.labels && n.labels["pool"] == pools[r.value].name
    ensures r.None? <==> "pool" in n.labels && n.labels["pool"] != "" ==>
                           forall j :: 0 <= j < |pools| ==> pools[j].name != n.labels["pool"]
  {
    if "pool" !in n.labels || n.labels["pool"] == "" then None else PoolByName(pools, n.labels["pool"])
  }

  predicate NodeIn(n: Node, pool: string) {
    "pool" in n.labels && n.labels["pool"] == pool
  }

  // A pod that makes its pool grow.
  predicate Wants(p: Pod, pools: seq<Pool>, name: string) {
    IsPendingForResources(p) && PoolForPod(p, pools).Some? && pools[PoolForPod(p, pools).value].name == name
  }

  function PodsFor(pods: seq<Pod>, pools: seq<Pool>, name: string): nat {
    if pods == [] then 0
    else PodsFor(pods[..|pods| - 1], pools, name) + if Wants(pods[|pods| - 1], pools, name) then 1 else 0
  }

  // A name that pods ask for is the name of a configured pool.
  lemma {:induction false} WantedPoolExists(pods: seq<Pod>, pools: seq<Pool>, name: string)
    requires PodsFor(pods, pools, name) > 0
    ensures PoolByName(pools, name).Some?
  {
    if !Wants(pods[|pods| - 1], pools, name) {
      WantedPoolExists(pods[..|pods| - 1], pools, name);
    }
  }

  function NodesIn(nodes: seq<Node>, name: string): nat {
    if nodes == [] then 0
    else NodesIn(nodes[..|nodes| - 1], name) + if NodeIn(nodes[|nodes| - 1], name) then 1 else 0
  }

  // Reading a missing key of a Go map of ints gives zero.
  function Get(counts: map<string, nat>, name: string): nat {
    if name in counts then counts[name] else 0
  }

  // ---- What is counted, in the fields of pods and nodes ----

  // A scheduler message that names a resource the cluster is short of.
  ghost predicate NamesShortage(message: string) {
    exists a: string, part: string, b: string :: message == a + part + b &&
      (part == "Insufficient cpu" || part == "Insufficient memory" || part == "Insufficient ephemeral-storage")
  }

  ghost predicate Starves(p: Pod) {
    && p.phase == "Pending"
    && exists c :: && c in p.conditions && c.kind == "PodScheduled" && c.status == "False"
                   && c.reason == "Unschedulable" && NamesShortage(c.message)
  }

  lemma ContainsIsSplit(text: string, part: string)
    ensures Contains(text, part) <==> exists a: string, b: string :: text == a + part + b
  {
    if Contains(text, part) {
      var i: nat :| i <= |text| && OccursAt(text, part, i);
      assert text == text[..i] + part + text[i + |part|..];
    }
    if a: string, b: string :| text == a + part + b {
      assert OccursAt(text, part, |a|);
    }
  }

  // WHO STARVES. A pod is resource-starved exactly when it is Pending and one of its conditions
  // says that scheduling failed as Unschedulable for want of cpu, memory or ephemeral storage.
  lemma StarvedPodsAreKnown(p: Pod)
    ensures IsPendingForResources(p) <==> Starves(p)
  {
    forall c | c in p.conditions
      ensures NamesShortage(c.message) <==>
              Contains(c.message, "Insufficient cpu") || Contains(c.message, "Insufficient memory")
              || Contains(c.message, "Insufficient ephemeral-storage")
    {
      ContainsIsSplit(c.message, "Insufficient cpu");
      ContainsIsSplit(c.message, "Insufficient memory");
      ContainsIsSplit(c.message, "Insufficient ephemeral-storage");
    }
    hide Contains, NamesShortage;
  }

  // A pod that starves for a pool: the first pool whose selector matches it has that name.
  ghost predicate StarvesFor(p: Pod, pools: seq<Pool>, name: string) {
    && Starves(p) && p.nodeSelector != map[]
    && exists i: nat ::
         && i < |pools| && pools[i].name == name
         && pools[i].selector.Some? && pools[i].selector.value(p.nodeSelector)
         && forall j :: 0 <= j < i && pools[j].selector.Some? ==> !pools[j].selector.value(p.nodeSelector)
  }

  lemma WantsIsStarvesFor(p: Pod, pools: seq<Pool>, name: string)
    ensures Wants(p, pools, name) <==> StarvesFor(p, pools, name)
  {
    StarvedPodsAreKnown(p);
    hide IsPendingForResources, Starves;
    if StarvesFor(p, pools, name) {
      var i: nat :| i < |pools| && pools[i].name == name
                    && pools[i].selector.Some? && pools[i].selector.value(p.nodeSelector)
                    && forall j :: 0 <= j < i && pools[j].selector.Some? ==> !pools[j].selector.value(p.nodeSelector);
      assert PoolForPod(p, pools) == Some(i);
    }
  }

  ghost function StarvingPods(pods: seq<Pod>, pools: seq<Pool>, name: string): set<int> {
    set i | 0 <= i < |pods| && StarvesFor(pods[i], pools, name)
  }

  // THE DEMAND FOR A POOL is the number of pods that starve for it.
  lemma {:induction false} DemandIsStarvingPods(pods: seq<Pod>, pools: seq<Pool>, name: string)
    ensures PodsFor(pods, pools, name) == |StarvingPods(pods, pools, name)|
  {
    hide Wants, StarvesFor;
    if pods == [] {
      assert StarvingPods(pods, pools, name) == {};
    } else {
      var n := |pods| - 1;
      DemandIsStarvingPods(pods[..n], pools, name);
      WantsIsStarvesFor(pods[n], pools, name);
      OneMorePod(pods, pools, name);
    }
  }

  lemma OneMorePod(pods: seq<Pod>, pools: seq<Pool>, name: string)
    requires pods != []
    ensures
      var n := |pods| - 1;
      |StarvingPods(pods, pools, name)| ==
      |StarvingPods(pods[..n], pools, name)| + if StarvesFor(pods[n], pools, name) then 1 else 0
  {
    hide StarvesFor;
    var n := |pods| - 1;
    var before := StarvingPods(pods[..n], pools, name);
    assert forall i :: 0 <= i < n ==> pods[..n][i] == pods[i];
    assert StarvingPods(pods, pools, name) == before + if StarvesFor(pods[n], pools, name) then {n} else {};
  }

  function LabelledNodes(nodes: seq<Node>, name: string): set<int> {
    set i | 0 <= i < |nodes| && "pool" in nodes[i].labels && nodes[i].labels["pool"] == name
  }

  // The current size of a pool is the number of nodes whose pool label has its name.
  lemma {:induction false} SizeIsLabelledNodes(nodes: seq<Node>, name: string)
    ensures NodesIn(nodes, name) == |LabelledNodes(nodes, name)|
  {
    if nodes == [] {
      assert LabelledNodes(nodes, name) == {};
    } else {
      var n := |nodes| - 1;
      SizeIsLabelledNodes(nodes[..n], name);
      var before := LabelledNodes(nodes[..n], name);
      assert LabelledNodes(nodes, name) ==
             before + if "pool" in nodes[n].labels && nodes[n].labels["pool"] == name then {n} else {};
    }
  }

  method GroupPendingByPool(pods: seq<Pod>, pools: seq<Pool>) returns (out: map<string, nat>)
    ensures forall name :: Get(out, name) == PodsFor(pods, pools, name)
    ensures forall name :: name in out <==> PodsFor(pods, pools, name) > 0
    ensures forall name :: Get(out, name) == |StarvingPods(pods, pools, name)|
  {
    out := map[];
    for k := 0 to |pods|
      invariant forall name :: Get(out, name) == PodsFor(pods[..k], pools, name)
      invariant forall name :: name in out <==> PodsFor(pods[..k], pools, name) > 0
    {
      assert pods[..k + 1][..k] == pods[..k];
      if !IsPendingForResources(pods[k]) {
        continue;
      }
      var pool := PoolForPod(pods[k], pools);
      if pool.None? {
        continue;
      }
      var name := pools[pool.value].name;
      out := out[name := Get(out, name) + 1];
    }
    assert pods[..|pods|] == pods;
    forall name
      ensures PodsFor(pods, pools, name) == |StarvingPods(pods, pools, name)|
    {
      DemandIsStarvingPods(pods, pools, name);
    }
  }

  method CountNodesByPool(nodes: seq<Node>) returns (out: map<string, nat>)
    ensures forall name :: Get(out, name) == NodesIn(nodes, name)
    ensures forall name :: Get(out, name) == |LabelledNodes(nodes, name)|
  {
    out := map[];
    for k := 0 to |nodes|
      invariant forall name :: Get(out, name) == NodesIn(nodes[..k], name)
    {
      assert nodes[..k + 1][..k] == nodes[..k];
      if "pool" in nodes[k].labels {
        var name := nodes[k].labels["pool"];
        out := out[name := Get(out, name) + 1];
      }
    }
    assert nodes[..|nodes|] == nodes;
    forall name
      ensures NodesIn(nodes, name) == |LabelledNodes(nodes, name)|
    {
      SizeIsLabelledNodes(nodes, name);
    }
  }

  // ---- Conservation ----

  predicate WantsSome(p: Pod, pools: seq<Pool>) {
    IsPendingForResources(p) && PoolForPod(p, pools).Some?
  }

  function StarvedPods(pods: seq<Pod>, pools: seq<Pool>): nat {
    if pods == [] then 0
    else StarvedPods(pods[..|pods| - 1], pools) + if WantsSome(pods[|pods| - 1], pools) then 1 else 0
  }

  function PodCounts(pods: seq<Pod>, pools: seq<Pool>): (cs: seq<int>)
    ensures |cs| == |pools|
  {
    seq(|pools|, i requires 0 <= i < |pools| => PodsFor(pods, pools, pools[i].name))
  }

  // Every resource-starved pod with a matching pool is counted once, for its first match.
  lemma {:induction false} PodsAreConserved(pods: seq<Pod>, pools: seq<Pool>)
    requires ValidPools(pools)
    ensures Sum(PodCounts(pods, pools)) == StarvedPods(pods, pools)
  {
    if pods == [] {
      SumOfZeros(PodCounts(pods, pools));
    } else {
      var n := |pods| - 1;
      var before, after := PodCounts(pods[..n], pools), PodCounts(pods, pools);
      PodsAreConserved(pods[..n], pools);
      if WantsSome(pods[n], pools) {
        var k := PoolForPod(pods[n], pools).value;
        SumUpdate(before, k, 1);
        assert after == before[k := before[k] + 1];
      } else {
        assert after == before;
      }
    }
  }

  lemma {:induction false} SumOfZeros(cs: seq<int>)
    requires forall i :: 0 <= i < |cs| ==> cs[i] == 0
    ensures Sum(cs) == 0
  {
    if cs != [] {
      SumOfZeros(cs[..|cs| - 1]);
    }
  }
}
