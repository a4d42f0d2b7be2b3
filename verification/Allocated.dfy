/** Resources allocated on nodes: what a pod asks for, and what the pods on a node ask for together. */
module Allocated {

  /** Exact quantities by resource name. */
  type Resources = map<string, int>

  datatype Kind = Requests | Limits

  datatype Container = Container(requests: Resources, limits: Resources)

  datatype Phase = Pending | Running | Succeeded | Failed | Unknown

  datatype Pod = Pod(nodeName: string, phase: Phase, containers: seq<Container>, initContainers: seq<Container>)

  const PODS := "pods"

  /** A missing resource reads as zero. */
  function At(list: Resources, name: string): int {
    if name in list then list[name] else 0
  }

  // ----- Lists updated in place -----

  function Added(a: Resources, b: Resources): (r: Resources)
    ensures r.Keys == a.Keys + b.Keys && forall k :: At(r, k) == At(a, k) + At(b, k)
  {
    map k | k in a.Keys + b.Keys :: At(a, k) + At(b, k)
  }

  function Maxed(a: Resources, b: Resources): Resources {
    map k | k in a.Keys + b.Keys ::
      if k !in a then b[k] else if k in b && b[k] > a[k] then b[k] else a[k]
  }

  /** Of both lists all resources, each the greater of the values given. */
  lemma MaxedIsGreater(a: Resources, b: Resources, k: string)
    ensures k in Maxed(a, b) <==> k in a || k in b
    ensures k in a ==> Maxed(a, b)[k] >= a[k]
    ensures k in b ==> Maxed(a, b)[k] >= b[k]
    ensures k in Maxed(a, b) ==> (k in a && Maxed(a, b)[k] == a[k]) || (k in b && Maxed(a, b)[k] == b[k])
  {
  }

  /** The entries visited once only `rest` is left. */
  function Visited(list: Resources, rest: set<string>): Resources {
    map k | k in list && k !in rest :: list[k]
  }

  lemma VisitOne(list: Resources, rest: set<string>, name: string)
    requires name in rest && rest <= list.Keys
    ensures name !in Visited(list, rest)
    ensures Visited(list, rest - {name}) == Visited(list, rest)[name := list[name]]
  {
  }

  lemma AddedOne(a: Resources, b: Resources, name: string, v: int)
    requires name !in b
    ensures Added(a, b[name := v]) == Added(a, b)[name := At(a, name) + v]
    ensures At(Added(a, b), name) == At(a, name) && (name in Added(a, b) <==> name in a)
  {
  }

  lemma MaxedOne(a: Resources, b: Resources, name: string, v: int)
    requires name !in b
    ensures Maxed(a, b[name := v]) == Maxed(a, b)[name := if name in a && a[name] > v then a[name] else v]
    ensures name in Maxed(a, b) <==> name in a
    ensures name in a ==> Maxed(a, b)[name] == a[name]
  {
    var l, r := Maxed(a, b[name := v]), Maxed(a, b)[name := if name in a && a[name] > v then a[name] else v];
    assert l.Keys == r.Keys;
  }

  class ResourceList {
    var quantities: Resources

    constructor ()
      ensures quantities == map[]
    {
      quantities := map[];
    }

    /** addResourceList; the iteration order over the added list is arbitrary. */
    method Add(newList: Resources)
      modifies this
      ensures quantities == Added(old(quantities), newList)
    {
      var rest := newList.Keys;
      while rest != {}
        invariant rest <= newList.Keys
        invariant quantities == Added(old(quantities), Visited(newList, rest))
      {
        var name :| name in rest;
        VisitOne(newList, rest, name);
        AddedOne(old(quantities), Visited(newList, rest), name, newList[name]);
        if name !in quantities {
          quantities := quantities[name := newList[name]];
        } else {
          quantities := quantities[name := quantities[name] + newList[name]];
        }
        rest := rest - {name};
      }
      assert Visited(newList, {}) == newList;
    }

    /** maxResourceList */
    method Max(newList: Resources)
      modifies this
      ensures quantities == Maxed(old(quantities), newList)
    {
      var rest := newList.Keys;
      while rest != {}
        invariant rest <= newList.Keys
        invariant quantities == Maxed(old(quantities), Visited(newList, rest))
      {
        var name :| name in rest;
        VisitOne(newList, rest, name);
        MaxedOne(old(quantities), Visited(newList, rest), name, newList[name]);
        if name !in quantities || newList[name] > quantities[name] {
          quantities := quantities[name := newList[name]];
        }
        rest := rest - {name};
      }
      assert Visited(newList, {}) == newList;
    }
  }

  // ----- One pod -----

  function SumList(ls: seq<Resources>, n: nat): Resources
    requires n <= |ls|
  {
    if n == 0 then map[] else Added(SumList(ls, n - 1), ls[n - 1])
  }

  function MaxList(start: Resources, ls: seq<Resources>, n: nat): Resources
    requires n <= |ls|
  {
    if n == 0 then start else Maxed(MaxList(start, ls, n - 1), ls[n - 1])
  }

  function RequestsOf(cs: seq<Container>): seq<Resources> {
    seq(|cs|, i requires 0 <= i < |cs| => cs[i].requests)
  }

  function LimitsOf(cs: seq<Container>): seq<Resources> {
    seq(|cs|, i requires 0 <= i < |cs| => cs[i].limits)
  }

  /** From the lists of the containers and those of the init containers. */
  function Amounts(own: seq<Resources>, init: seq<Resources>): Resources {
    MaxList(SumList(own, |own|), init, |init|)
  }

  function PodList(pod: Pod, kind: Kind): Resources {
    match kind
    case Requests => Amounts(RequestsOf(pod.containers), RequestsOf(pod.initContainers))
    case Limits => Amounts(LimitsOf(pod.containers), LimitsOf(pod.initContainers))
  }

  /** The loop over the containers. */
  method AddContainers(reqs: ResourceList, limits: ResourceList, cs: seq<Container>)
    requires reqs != limits && reqs.quantities == map[] && limits.quantities == map[]
    modifies reqs, limits
    ensures reqs.quantities == SumList(RequestsOf(cs), |cs|) && limits.quantities == SumList(LimitsOf(cs), |cs|)
  {
    for i := 0 to |cs|
      invariant reqs.quantities == SumList(RequestsOf(cs), i) && limits.quantities == SumList(LimitsOf(cs), i)
    {
      reqs.Add(cs[i].requests);
      limits.Add(cs[i].limits);
    }
  }

  /** The loop over the init containers. */
  method MaxContainers(reqs: ResourceList, limits: ResourceList, cs: seq<Container>)
    requires reqs != limits
    modifies reqs, limits
    ensures reqs.quantities == MaxList(old(reqs.quantities), RequestsOf(cs), |cs|)
    ensures limits.quantities == MaxList(old(limits.quantities), LimitsOf(cs), |cs|)
  {
    ghost var first, bound, wanted, allowed :=
      reqs.quantities, limits.quantities, RequestsOf(cs), LimitsOf(cs);
    for i := 0 to |cs|
      invariant reqs.quantities == MaxList(first, wanted, i)
      invariant limits.quantities == MaxList(bound, allowed, i)
    {
      assert wanted[i] == cs[i].requests && allowed[i] == cs[i].limits;
      reqs.Max(cs[i].requests);
      limits.Max(cs[i].limits);
    }
  }

  /** PodRequestsAndLimits */
  method PodRequestsAndLimits(pod: Pod) returns (reqs: ResourceList, limits: ResourceList)
    ensures fresh(reqs) && fresh(limits) && reqs != limits
    ensures reqs.quantities == PodList(pod, Requests) && limits.quantities == PodList(pod, Limits)
  {
    reqs := new ResourceList();
    limits := new ResourceList();
    AddContainers(reqs, limits, pod.containers);
    MaxContainers(reqs, limits, pod.initContainers);
  }

  ghost predicate DefinedBy(ls: seq<Resources>, n: nat, k: string)
    requires n <= |ls|
  {
    exists i :: 0 <= i < n && k in ls[i]
  }

  function SumOf(ls: seq<Resources>, n: nat, k: string): int
    requires n <= |ls|
  {
    if n == 0 then 0 else SumOf(ls, n - 1, k) + At(ls[n - 1], k)
  }

  lemma {:induction false} SumListIsSum(ls: seq<Resources>, n: nat, k: string)
    requires n <= |ls|
    ensures At(SumList(ls, n), k) == SumOf(ls, n, k)
    ensures k in SumList(ls, n) <==> DefinedBy(ls, n, k)
  {
    if n > 0 {
      SumListIsSum(ls, n - 1, k);
    }
  }

  /** `v` is the greatest of `first`, where that is given, and the values of `k` in the first `n` of `ls`. */
  ghost predicate IsGreatest(v: int, given: bool, first: int, ls: seq<Resources>, n: nat, k: string)
    requires n <= |ls|
  {
    && (given ==> v >= first)
    && (forall i :: 0 <= i < n && k in ls[i] ==> v >= ls[i][k])
    && ((given && v == first) || exists i :: 0 <= i < n && k in ls[i] && v == ls[i][k])
  }

  lemma GreatestOneMore(v: int, given: bool, first: int, ls: seq<Resources>, n: nat, k: string)
    requires n < |ls| && IsGreatest(v, given, first, ls, n, k)
    ensures var l := ls[n]; var w := if k in l && l[k] > v then l[k] else v;
      IsGreatest(w, given, first, ls, n + 1, k)
  {
  }

  lemma GreatestFirst(first: int, ls: seq<Resources>, n: nat, k: string)
    requires n < |ls| && k in ls[n] && !DefinedBy(ls, n, k)
    ensures IsGreatest(ls[n][k], false, first, ls, n + 1, k)
  {
  }

  lemma DefinedByNext(ls: seq<Resources>, n: nat, k: string)
    requires n < |ls|
    ensures DefinedBy(ls, n + 1, k) <==> DefinedBy(ls, n, k) || k in ls[n]
  {
  }

  lemma {:induction false} MaxListKeys(start: Resources, ls: seq<Resources>, n: nat, k: string)
    requires n <= |ls|
    ensures k in MaxList(start, ls, n) <==> k in start || DefinedBy(ls, n, k)
  {
    if n > 0 {
      MaxListKeys(start, ls, n - 1, k);
      DefinedByNext(ls, n - 1, k);
      MaxedIsGreater(MaxList(start, ls, n - 1), ls[n - 1], k);
    }
  }

  lemma MaxListNext(start: Resources, ls: seq<Resources>, n: nat, k: string)
    requires n < |ls|
    requires k !in MaxList(start, ls, n) ==> k !in start && !DefinedBy(ls, n, k)
    requires k in MaxList(start, ls, n) ==>
               IsGreatest(MaxList(start, ls, n)[k], k in start, At(start, k), ls, n, k)
    ensures k in MaxList(start, ls, n + 1) ==>
              IsGreatest(MaxList(start, ls, n + 1)[k], k in start, At(start, k), ls, n + 1, k)
  {
    var a, l := MaxList(start, ls, n), ls[n];
    var after := MaxList(start, ls, n + 1);
    if k in a {
      assert after[k] == if k in l && l[k] > a[k] then l[k] else a[k];
      GreatestOneMore(a[k], k in start, At(start, k), ls, n, k);
    } else if k in l {
      assert after[k] == l[k];
      GreatestFirst(At(start, k), ls, n, k);
    }
  }

  lemma MaxListIsGreatest(start: Resources, ls: seq<Resources>, n: nat, k: string)
    requires n <= |ls|
    ensures k in MaxList(start, ls, n) ==>
              IsGreatest(MaxList(start, ls, n)[k], k in start, At(start, k), ls, n, k)
  {
    for i := 0 to n
      invariant k in MaxList(start, ls, i) ==>
                  IsGreatest(MaxList(start, ls, i)[k], k in start, At(start, k), ls, i, k)
    {
      MaxListKeys(start, ls, i, k);
      MaxListNext(start, ls, i, k);
    }
  }

  /** A value for a resource is the greater of the sum over the containers and every init container's value, and exists
      exactly if some container or init container defines the resource. */
  ghost predicate IsAmount(list: Resources, own: seq<Resources>, init: seq<Resources>, k: string) {
    && (k in list <==> DefinedBy(own, |own|, k) || DefinedBy(init, |init|, k))
    && (k in list ==> IsGreatest(list[k], DefinedBy(own, |own|, k), SumOf(own, |own|, k), init, |init|, k))
  }

  ghost predicate AreAmounts(list: Resources, own: seq<Resources>, init: seq<Resources>) {
    forall k :: IsAmount(list, own, init, k)
  }

  lemma AmountIsGreatest(own: seq<Resources>, init: seq<Resources>, k: string)
    ensures IsAmount(Amounts(own, init), own, init, k)
  {
    SumListIsSum(own, |own|, k);
    var sums := SumList(own, |own|);
    MaxListKeys(sums, init, |init|, k);
    MaxListIsGreatest(sums, init, |init|, k);
  }

  /** The lists are those of the containers: their requests, or their limits. */
  ghost predicate FieldsOf(reqs: seq<Resources>, limits: seq<Resources>, cs: seq<Container>) {
    && |reqs| == |limits| == |cs|
    && forall i :: 0 <= i < |cs| ==> cs[i] == Container(reqs[i], limits[i])
  }

  /** The values of a pod, from the requests of its containers and from their limits. */
  lemma PodValuesAreGreatest(pod: Pod)
    ensures FieldsOf(RequestsOf(pod.containers), LimitsOf(pod.containers), pod.containers)
    ensures FieldsOf(RequestsOf(pod.initContainers), LimitsOf(pod.initContainers), pod.initContainers)
    ensures AreAmounts(PodList(pod, Requests), RequestsOf(pod.containers), RequestsOf(pod.initContainers))
    ensures AreAmounts(PodList(pod, Limits), LimitsOf(pod.containers), LimitsOf(pod.initContainers))
  {
    forall k ensures IsAmount(PodList(pod, Requests), RequestsOf(pod.containers), RequestsOf(pod.initContainers), k) {
      AmountIsGreatest(RequestsOf(pod.containers), RequestsOf(pod.initContainers), k);
    }
    forall k ensures IsAmount(PodList(pod, Limits), LimitsOf(pod.containers), LimitsOf(pod.initContainers), k) {
      AmountIsGreatest(LimitsOf(pod.containers), LimitsOf(pod.initContainers), k);
    }
  }

  // ----- One node -----

  predicate Active(pod: Pod) {
    !pod.phase.Succeeded? && !pod.phase.Failed?
  }

  function Scheduled(pods: seq<Pod>, n: nat, node: string): seq<Pod>
    requires n <= |pods|
  {
    if n == 0 then []
    else
      Scheduled(pods, n - 1, node)
      + if pods[n - 1].nodeName == node && Active(pods[n - 1]) then [pods[n - 1]] else []
  }

  /** podsScheduledOnNode */
  method PodsScheduledOnNode(pods: seq<Pod>, node: string) returns (items: seq<Pod>)
    ensures items == Scheduled(pods, |pods|, node)
    ensures forall p :: p in items <==>
              p in pods && p.nodeName == node && (p.phase.Pending? || p.phase.Running? || p.phase.Unknown?)
  {
    items := [];
    for i := 0 to |pods|
      invariant items == Scheduled(pods, i, node)
      invariant forall p :: p in items <==> p in pods[..i] && p.nodeName == node && Active(p)
    {
      var pod := pods[i];
      if pod.nodeName != node {
        continue;
      }
      if pod.phase == Succeeded || pod.phase == Failed {
        continue;
      }
      items := items + [pod];
    }
  }

  function TotalList(items: seq<Pod>, n: nat, kind: Kind): Resources
    requires n <= |items|
  {
    if n == 0 then map[] else Added(TotalList(items, n - 1, kind), PodList(items[n - 1], kind))
  }

  function NodeList(items: seq<Pod>, kind: Kind): Resources {
    TotalList(items, |items|, kind)[PODS := |items|]
  }

  /** The body of the loop over the pods of a node. */
  method AddPod(reqs: ResourceList, limits: ResourceList, pod: Pod)
    requires reqs != limits
    modifies reqs, limits
    ensures reqs.quantities == Added(old(reqs.quantities), PodList(pod, Requests))
    ensures limits.quantities == Added(old(limits.quantities), PodList(pod, Limits))
  {
    var podReqs, podLimits := PodRequestsAndLimits(pod);
    reqs.Add(podReqs.quantities);
    limits.Add(podLimits.quantities);
  }

  /** The resource maps of getNodeAllocatedResources. */
  method GetNodeAllocatedResources(items: seq<Pod>) returns (reqs: ResourceList, limits: ResourceList)
    ensures fresh(reqs) && fresh(limits) && reqs != limits
    ensures reqs.quantities == NodeList(items, Requests) && limits.quantities == NodeList(items, Limits)
  {
    reqs := new ResourceList();
    limits := new ResourceList();
    for i := 0 to |items|
      invariant reqs.quantities == TotalList(items, i, Requests)
      invariant limits.quantities == TotalList(items, i, Limits)
    {
      AddPod(reqs, limits, items[i]);
    }
    reqs.quantities := reqs.quantities[PODS := |items|];
    limits.quantities := limits.quantities[PODS := |items|];
  }

  /** What one pod adds to its node: itself to the number of pods, and its own value to every other resource. */
  function Contribution(pod: Pod, kind: Kind, k: string): int {
    if k == "pods" then 1 else At(PodList(pod, kind), k)
  }

  function ContributionOf(kind: Kind, k: string): Pod -> int {
    p => Contribution(p, kind, k)
  }

  function SumOfPods(items: seq<Pod>, n: nat, f: Pod -> int): int
    requires n <= |items|
  {
    if n == 0 then 0 else SumOfPods(items, n - 1, f) + f(items[n - 1])
  }

  lemma {:induction false} TotalListIsSum(items: seq<Pod>, n: nat, kind: Kind, k: string)
    requires n <= |items|
    ensures SumOfPods(items, n, ContributionOf(kind, k)) == if k == PODS then n else At(TotalList(items, n, kind), k)
  {
    if n > 0 {
      TotalListIsSum(items, n - 1, kind, k);
    }
  }

  // ----- All nodes -----

  /** Pods that are pending or running, or in a phase nobody knows, have resources. */
  predicate Counted(phase: Phase) {
    phase.Pending? || phase.Running? || phase.Unknown?
  }

  /** The sum over the pods on any of the nodes that have resources. */
  function SumOn(pods: seq<Pod>, n: nat, nodes: set<string>, f: Pod -> int): int
    requires n <= |pods|
  {
    if n == 0 then 0
    else SumOn(pods, n - 1, nodes, f)
         + if pods[n - 1].nodeName in nodes && Counted(pods[n - 1].phase) then f(pods[n - 1]) else 0
  }

  function NodeAmount(pods: seq<Pod>, node: string, kind: Kind, k: string): int {
    At(NodeList(Scheduled(pods, |pods|, node), kind), k)
  }

  function AmountOf(pods: seq<Pod>, kind: Kind, k: string): string -> int {
    node => NodeAmount(pods, node, kind, k)
  }

  function SumOverNodes(nodes: seq<string>, m: nat, amount: string -> int): int
    requires m <= |nodes|
  {
    if m == 0 then 0 else SumOverNodes(nodes, m - 1, amount) + amount(nodes[m - 1])
  }

  lemma {:induction false} SumOfPodsOneMore(items: seq<Pod>, p: Pod, n: nat, f: Pod -> int)
    requires n <= |items|
    ensures SumOfPods(items + [p], n, f) == SumOfPods(items, n, f)
  {
    if n > 0 {
      SumOfPodsOneMore(items, p, n - 1, f);
    }
  }

  lemma SumOfPodsAppend(items: seq<Pod>, p: Pod, f: Pod -> int)
    ensures SumOfPods(items + [p], |items| + 1, f)
            == SumOfPods(items, |items|, f) + f(p)
  {
    SumOfPodsOneMore(items, p, |items|, f);
  }

  lemma {:induction false} ScheduledSum(pods: seq<Pod>, n: nat, node: string, f: Pod -> int)
    requires n <= |pods|
    ensures SumOfPods(Scheduled(pods, n, node), |Scheduled(pods, n, node)|, f) == SumOn(pods, n, {node}, f)
  {
    if n > 0 {
      ScheduledSum(pods, n - 1, node, f);
      var before := Scheduled(pods, n - 1, node);
      if pods[n - 1].nodeName == node && Active(pods[n - 1]) {
        SumOfPodsAppend(before, pods[n - 1], f);
        assert Scheduled(pods, n, node) == before + [pods[n - 1]];
      } else {
        assert Scheduled(pods, n, node) == before;
      }
    }
  }

  lemma {:induction false} SumOnJoin(pods: seq<Pod>, n: nat, a: set<string>, b: set<string>, f: Pod -> int)
    requires n <= |pods| && a !! b
    ensures SumOn(pods, n, a + b, f) == SumOn(pods, n, a, f) + SumOn(pods, n, b, f)
  {
    if n > 0 {
      SumOnJoin(pods, n - 1, a, b, f);
    }
  }

  lemma {:induction false} SumOnNone(pods: seq<Pod>, n: nat, f: Pod -> int)
    requires n <= |pods|
    ensures SumOn(pods, n, {}, f) == 0
  {
    if n > 0 {
      SumOnNone(pods, n - 1, f);
    }
  }

  /** The names of the first `m` nodes. */
  function NamesTo(nodes: seq<string>, m: nat): set<string>
    requires m <= |nodes|
  {
    if m == 0 then {} else NamesTo(nodes, m - 1) + {nodes[m - 1]}
  }

  lemma {:induction false} NameIsNew(nodes: seq<string>, m: nat, name: string)
    requires m <= |nodes| && forall i :: 0 <= i < m ==> nodes[i] != name
    ensures name !in NamesTo(nodes, m)
  {
    if m > 0 {
      NameIsNew(nodes, m - 1, name);
    }
  }

  lemma OneNodeMore(pods: seq<Pod>, nodes: seq<string>, m: nat, f: Pod -> int)
    requires m < |nodes| && forall i :: 0 <= i < m ==> nodes[i] != nodes[m]
    ensures SumOn(pods, |pods|, NamesTo(nodes, m + 1), f)
            == SumOn(pods, |pods|, NamesTo(nodes, m), f) + SumOn(pods, |pods|, {nodes[m]}, f)
  {
    NameIsNew(nodes, m, nodes[m]);
    SumOnJoin(pods, |pods|, NamesTo(nodes, m), {nodes[m]}, f);
  }

  lemma {:induction false} AmountsSumToPods(pods: seq<Pod>, nodes: seq<string>, m: nat, amount: string -> int,
                                            f: Pod -> int)
    requires m <= |nodes| && forall i, j :: 0 <= i < j < |nodes| ==> nodes[i] != nodes[j]
    requires forall i :: 0 <= i < m ==> amount(nodes[i]) == SumOn(pods, |pods|, {nodes[i]}, f)
    ensures SumOverNodes(nodes, m, amount) == SumOn(pods, |pods|, NamesTo(nodes, m), f)
  {
    if m == 0 {
      SumOnNone(pods, |pods|, f);
    } else {
      AmountsSumToPods(pods, nodes, m - 1, amount, f);
      OneNodeMore(pods, nodes, m - 1, f);
    }
  }

  /** Adding up the nodes is adding up the pods: for every resource, the amounts of distinctly named nodes sum to the
      sum over all pods that run on one of them and have not terminated. */
  lemma NodesSumToPods(pods: seq<Pod>, nodes: seq<string>, kind: Kind, k: string)
    requires forall i, j :: 0 <= i < j < |nodes| ==> nodes[i] != nodes[j]
    ensures SumOverNodes(nodes, |nodes|, AmountOf(pods, kind, k))
            == SumOn(pods, |pods|, NamesTo(nodes, |nodes|), ContributionOf(kind, k))
  {
    forall i | 0 <= i < |nodes|
      ensures AmountOf(pods, kind, k)(nodes[i]) == SumOn(pods, |pods|, {nodes[i]}, ContributionOf(kind, k))
    {
      NodeSumsToPods(pods, nodes[i], kind, k);
    }
    AmountsSumToPods(pods, nodes, |nodes|, AmountOf(pods, kind, k), ContributionOf(kind, k));
  }

  lemma NodeSumsToPods(pods: seq<Pod>, node: string, kind: Kind, k: string)
    ensures NodeAmount(pods, node, kind, k) == SumOn(pods, |pods|, {node}, ContributionOf(kind, k))
  {
    var items := Scheduled(pods, |pods|, node);
    TotalListIsSum(items, |items|, kind, k);
    ScheduledSum(pods, |pods|, node, ContributionOf(kind, k));
  }
}
