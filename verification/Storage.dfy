/** Storage capacity as a metric: volume claims are added up per pod, turned into one series per claim and
    pod, split over containers and folded into one entry per container. */
module Storage {
  import opened MetricSplit

  // ----- Splitting on slashes -----

  /** strings.Split(s, "/") */
  function SplitSlash(s: string): (r: seq<string>)
    ensures r != []
  {
    if s == "" then [""]
    else
      var rest := SplitSlash(s[1..]);
      if s[0] == '/' then [""] + rest else [[s[0]] + rest[0]] + rest[1..]
  }

  predicate SlashFree(s: string) {
    '/' !in s
  }

  lemma {:induction false} SplitPlain(s: string)
    requires SlashFree(s)
    ensures SplitSlash(s) == [s]
  {
    if s != "" {
      SplitPlain(s[1..]);
      assert [s[0]] + s[1..] == s;
    }
  }

  /** Splitting undoes joining. */
  lemma {:induction false} SplitUndoesJoin(a: string, b: string)
    requires SlashFree(a) && SlashFree(b)
    ensures SplitSlash(a + "/" + b) == [a, b]
  {
    var s := a + "/" + b;
    if a == "" {
      assert s[1..] == b && s[0] == '/';
      SplitPlain(b);
    } else {
      assert s[0] == a[0] && s[1..] == a[1..] + "/" + b;
      SplitUndoesJoin(a[1..], b);
      assert [a[0]] + a[1..] == a;
      assert a[0] in a;
    }
  }

  // ----- Claims -----

  /** The program keeps no namespace of a claim; here it says which pods the claim belongs to. */
  datatype Pvc = Pvc(namespace: string, name: string, capacity: int, refs: seq<string>)

  /** A volume of a pod that names a claim. */
  datatype Volume = Volume(claim: string, podKey: string)

  function FirstNamed(pvcs: seq<Pvc>, name: string, p: nat): (i: nat)
    requires p <= |pvcs|
    ensures p <= i <= |pvcs| && (i < |pvcs| ==> pvcs[i].name == name)
    ensures forall j :: p <= j < i ==> pvcs[j].name != name
    decreases |pvcs| - p
  {
    if p == |pvcs| || pvcs[p].name == name then p else FirstNamed(pvcs, name, p + 1)
  }

  /** The volume adds to its pod's capacity. */
  predicate Accepted(pvcs: seq<Pvc>, v: Volume) {
    v.claim != "" && v.podKey != "" && FirstNamed(pvcs, v.claim, 0) < |pvcs|
  }

  function CapacityOf(pvcs: seq<Pvc>, v: Volume): int {
    var i := FirstNamed(pvcs, v.claim, 0);
    if Accepted(pvcs, v) then pvcs[i].capacity else 0
  }

  /** The capacity of all claims that the pod's first `n` volumes refer to. */
  function Claimed(pvcs: seq<Pvc>, volumes: seq<Volume>, n: nat, podKey: string): int
    requires n <= |volumes|
  {
    if n == 0 then 0
    else Claimed(pvcs, volumes, n - 1, podKey)
         + if volumes[n - 1].podKey == podKey then CapacityOf(pvcs, volumes[n - 1]) else 0
  }

  // ----- The claims a pod means -----

  function PodNamespace(podKey: string): string {
    SplitSlash(podKey)[0]
  }

  function FirstIn(pvcs: seq<Pvc>, namespace: string, name: string, p: nat): (i: nat)
    requires p <= |pvcs|
    ensures p <= i <= |pvcs| && (i < |pvcs| ==> pvcs[i].name == name && pvcs[i].namespace == namespace)
    ensures forall j :: p <= j < i ==> !(pvcs[j].name == name && pvcs[j].namespace == namespace)
    decreases |pvcs| - p
  {
    if p == |pvcs| || (pvcs[p].name == name && pvcs[p].namespace == namespace) then p
    else FirstIn(pvcs, namespace, name, p + 1)
  }

  /** The capacity of the claim in the pod's own namespace. */
  function OwnCapacityOf(pvcs: seq<Pvc>, v: Volume): int {
    var i := FirstIn(pvcs, PodNamespace(v.podKey), v.claim, 0);
    if v.claim != "" && v.podKey != "" && i < |pvcs| then pvcs[i].capacity else 0
  }

  /** The capacity of the pod's own claims, of those its first `n` volumes refer to. */
  function OwnClaimed(pvcs: seq<Pvc>, volumes: seq<Volume>, n: nat, podKey: string): int
    requires n <= |volumes|
  {
    if n == 0 then 0
    else OwnClaimed(pvcs, volumes, n - 1, podKey)
         + if volumes[n - 1].podKey == podKey then OwnCapacityOf(pvcs, volumes[n - 1]) else 0
  }

  /** A volume selects its pod's own claim: the first claim of the name, if any, is in the pod's namespace, or it has
      the capacity that the pod's own claim has, zero standing for none. */
  predicate SelectsOwn(pvcs: seq<Pvc>, v: Volume) {
    Accepted(pvcs, v) ==>
      var first, own := FirstNamed(pvcs, v.claim, 0), FirstIn(pvcs, PodNamespace(v.podKey), v.claim, 0);
      || pvcs[first].namespace == PodNamespace(v.podKey)
      || pvcs[first].capacity == if own < |pvcs| then pvcs[own].capacity else 0
  }

  /** That is exactly when the volume adds the capacity of its own claim. */
  lemma OwnCapacityIff(pvcs: seq<Pvc>, v: Volume)
    ensures CapacityOf(pvcs, v) == OwnCapacityOf(pvcs, v) <==> SelectsOwn(pvcs, v)
  {
    var first, own := FirstNamed(pvcs, v.claim, 0), FirstIn(pvcs, PodNamespace(v.podKey), v.claim, 0);
    assert own < |pvcs| ==> first <= own;
    if first < |pvcs| && pvcs[first].namespace == PodNamespace(v.podKey) {
      assert own <= first;
    }
  }

  lemma {:induction false} OwnVolumesGiveOwnClaims(pvcs: seq<Pvc>, volumes: seq<Volume>, n: nat, podKey: string)
    requires n <= |volumes|
    requires forall i :: 0 <= i < |volumes| && volumes[i].podKey == podKey ==> SelectsOwn(pvcs, volumes[i])
    ensures Claimed(pvcs, volumes, n, podKey) == OwnClaimed(pvcs, volumes, n, podKey)
  {
    if n > 0 {
      OwnVolumesGiveOwnClaims(pvcs, volumes, n - 1, podKey);
      OwnCapacityIff(pvcs, volumes[n - 1]);
    }
  }

  /** No claim of another namespace has the name of a claim that the pod refers to. */
  ghost predicate NamesAreOwn(pvcs: seq<Pvc>, volumes: seq<Volume>, podKey: string) {
    forall i, j :: 0 <= i < |volumes| && 0 <= j < |pvcs| ==>
      volumes[i].podKey == podKey && pvcs[j].name == volumes[i].claim ==> pvcs[j].namespace == PodNamespace(podKey)
  }

  /** Then the claims found by name are the pod's own. */
  lemma OwnNamesGiveOwnClaims(pvcs: seq<Pvc>, volumes: seq<Volume>, n: nat, podKey: string)
    requires n <= |volumes| && NamesAreOwn(pvcs, volumes, podKey)
    ensures Claimed(pvcs, volumes, n, podKey) == OwnClaimed(pvcs, volumes, n, podKey)
  {
    OwnVolumesGiveOwnClaims(pvcs, volumes, n, podKey);
  }

  /** A pod in namespace b gets the capacity of a claim in namespace a that is listed first. */
  lemma OtherNamespaceIsTaken()
    ensures var pvcs, volumes := [Pvc("a", "data", 10, []), Pvc("b", "data", 20, [])], [Volume("data", "b/p")];
      Claimed(pvcs, volumes, 1, "b/p") == 10 && OwnClaimed(pvcs, volumes, 1, "b/p") == 20
  {
    var pvcs, volumes := [Pvc("a", "data", 10, []), Pvc("b", "data", 20, [])], [Volume("data", "b/p")];
    SplitUndoesJoin("b", "p");
    assert "b" + "/" + "p" == "b/p" && PodNamespace("b/p") == "b";
    assert "a"[0] != "b"[0];
    assert FirstNamed(pvcs, "data", 0) == 0 && FirstIn(pvcs, "b", "data", 1) == 1;
  }

  ghost predicate HasVolume(pvcs: seq<Pvc>, volumes: seq<Volume>, podKey: string) {
    exists i :: 0 <= i < |volumes| && volumes[i].podKey == podKey && Accepted(pvcs, volumes[i])
  }

  /** Only references differ. */
  ghost predicate SameClaims(a: seq<Pvc>, b: seq<Pvc>) {
    |a| == |b| && forall i :: 0 <= i < |a| ==> a[i].(refs := []) == b[i].(refs := [])
  }

  ghost predicate Referenced(pvcs: seq<Pvc>, podKey: string) {
    exists i :: 0 <= i < |pvcs| && podKey in pvcs[i].refs
  }

  function Total(totals: map<string, int>, podKey: string): int {
    if podKey in totals then totals[podKey] else 0
  }

  lemma {:induction false} SameFirst(a: seq<Pvc>, b: seq<Pvc>, name: string, p: nat)
    requires SameClaims(a, b) && p <= |a|
    ensures FirstNamed(a, name, p) == FirstNamed(b, name, p)
    decreases |a| - p
  {
    if p < |a| && a[p].name != name {
      SameFirst(a, b, name, p + 1);
    }
  }

  // ----- Series -----

  datatype Range = Range(start: int, end: int, step: int)
  {
    ghost predicate Valid() { start <= end && step > 0 }
    function Steps(): int requires step > 0 { (end - start) / step }
  }

  function EveryStep(v: real, r: Range): (q: seq<SamplePair>)
    requires r.start <= r.end && r.step > 0
  {
    seq(r.Steps(), i requires 0 <= i < r.Steps() => SamplePair(r.start + i * r.step, v))
  }

  /** The series for one reference of a claim, if the reference has the form namespace/name. */
  function RefStreams(ref: string, totals: map<string, int>, r: Range): (q: seq<Stream>)
    requires r.start <= r.end && r.step > 0
  {
    var fields := SplitSlash(ref);
    if |fields| < 2 then []
    else [Stream(map["namespace" := fields[0], "pod" := fields[1]], EveryStep(Total(totals, ref) as real, r))]
  }

  function RefsStreams(refs: seq<string>, n: nat, totals: map<string, int>, r: Range): seq<Stream>
    requires n <= |refs| && r.start <= r.end && r.step > 0
  {
    if n == 0 then [] else RefsStreams(refs, n - 1, totals, r) + RefStreams(refs[n - 1], totals, r)
  }

  function PvcStreams(pvcs: seq<Pvc>, n: nat, totals: map<string, int>, r: Range): seq<Stream>
    requires n <= |pvcs| && r.start <= r.end && r.step > 0
  {
    if n == 0 then []
    else PvcStreams(pvcs, n - 1, totals, r) + RefsStreams(pvcs[n - 1].refs, |pvcs[n - 1].refs|, totals, r)
  }

  /** Samples of the value from the start on, a step apart, as many as there are whole steps up to the end. */
  ghost predicate FillsRange(values: seq<SamplePair>, v: real, r: Range) {
    && (forall i :: 0 <= i < |values| ==> values[i].value == v)
    && (values != [] ==> values[0].timestamp == r.start)
    && (forall i :: 0 < i < |values| ==> values[i].timestamp == values[i - 1].timestamp + r.step)
    && r.start + |values| * r.step <= r.end < r.start + (|values| + 1) * r.step
  }

  lemma WholeSteps(length: int, step: int)
    requires length >= 0 && step > 0
    ensures 0 <= length / step && (length / step) * step <= length < (length / step + 1) * step
  {
  }

  lemma EveryStepFills(v: real, r: Range)
    requires r.start <= r.end && r.step > 0
    ensures FillsRange(EveryStep(v, r), v, r)
  {
    WholeSteps(r.end - r.start, r.step);
    var q := EveryStep(v, r);
    forall i | 0 < i < |q| ensures q[i].timestamp == q[i - 1].timestamp + r.step {
      assert i * r.step == (i - 1) * r.step + r.step;
    }
  }

  method UseThisValueForEveryStep(v: real, r: Range) returns (values: seq<SamplePair>)
    requires r.Valid()
    ensures values == EveryStep(v, r) && FillsRange(values, v, r)
  {
    EveryStepFills(v, r);
    values := [];
    var t := r.start;
    for i := 0 to r.Steps()
      invariant |values| == i && t == r.start + i * r.step
      invariant forall j :: 0 <= j < i ==> values[j] == SamplePair(r.start + j * r.step, v)
    {
      values := values + [SamplePair(t, v)];
      t := t + r.step;
    }
  }

  ghost predicate TotalsRight(totals: map<string, int>, found: seq<Pvc>, volumes: seq<Volume>) {
    forall k :: Total(totals, k) == Claimed(found, volumes, |volumes|, k)
  }

  ghost predicate RefsRight(pvcs: seq<Pvc>, found: seq<Pvc>, volumes: seq<Volume>) {
    forall k :: Referenced(pvcs, k) <==> HasVolume(found, volumes, k)
  }

  class StorageInfo {
    var pvcs: seq<Pvc>
    var totalCapacityPerPod: map<string, int>
    ghost var found: seq<Pvc>            // the claims as found in the cluster
    ghost var volumes: seq<Volume>        // every AddPVCRef so far

    /** Totals and references are those of the volumes added so far. */
    ghost predicate Valid()
      reads this
    {
      && SameClaims(pvcs, found)
      && TotalsRight(totalCapacityPerPod, found, volumes)
      && RefsRight(pvcs, found, volumes)
    }

    constructor (pvcs: seq<Pvc>)
      requires forall i :: 0 <= i < |pvcs| ==> pvcs[i].refs == []
      ensures Valid() && found == pvcs && volumes == []
    {
      this.pvcs, totalCapacityPerPod, found, volumes := pvcs, map[], pvcs, [];
    }

    method AddPVCRef(claim: string, podKey: string)
      requires Valid()
      modifies this
      ensures Valid() && found == old(found) && volumes == old(volumes) + [Volume(claim, podKey)]
    {
      ghost var v := Volume(claim, podKey);
      TotalsStayRight(totalCapacityPerPod, found, volumes, v);
      RefsStayRight(pvcs, found, volumes, v);
      SameFirst(pvcs, found, claim, 0);
      volumes := volumes + [v];
      if |pvcs| == 0 || claim == "" || podKey == "" {
        return;
      }
      var i := 0;
      while i < |pvcs| && pvcs[i].name != claim
        invariant 0 <= i <= |pvcs| && forall j :: 0 <= j < i ==> pvcs[j].name != claim
      {
        i := i + 1;
      }
      assert i == FirstNamed(pvcs, claim, 0);
      if i == |pvcs| {
        return;
      }
      pvcs := pvcs[i := pvcs[i].(refs := pvcs[i].refs + [podKey])];
      totalCapacityPerPod := totalCapacityPerPod[podKey := Total(totalCapacityPerPod, podKey) + pvcs[i].capacity];
    }

    method ManufactureMetrics(r: Range) returns (metrics: seq<Stream>)
      requires r.Valid()
      ensures metrics == PvcStreams(pvcs, |pvcs|, totalCapacityPerPod, r)
    {
      metrics := [];
      for i := 0 to |pvcs|
        invariant metrics == PvcStreams(pvcs, i, totalCapacityPerPod, r)
      {
        ghost var sofar := metrics;
        var refs := pvcs[i].refs;
        for j := 0 to |refs|
          invariant metrics == sofar + RefsStreams(refs, j, totalCapacityPerPod, r)
        {
          var fields := SplitSlash(refs[j]);
          if |fields| < 2 {
            continue;
          }
          var values := UseThisValueForEveryStep(Total(totalCapacityPerPod, refs[j]) as real, r);
          metrics := metrics + [Stream(map["namespace" := fields[0], "pod" := fields[1]], values)];
        }
      }
    }
  }

  lemma TotalAdded(totals: map<string, int>, podKey: string, capacity: int, k: string)
    ensures Total(totals[podKey := Total(totals, podKey) + capacity], k)
            == Total(totals, k) + if k == podKey then capacity else 0
  {
  }

  /** An accepted volume adds its claim's capacity to its pod. */
  lemma TotalsStayRight(totals: map<string, int>, found: seq<Pvc>, volumes: seq<Volume>, v: Volume)
    requires TotalsRight(totals, found, volumes)
    ensures var after := totals[v.podKey := Total(totals, v.podKey) + CapacityOf(found, v)];
      TotalsRight(if Accepted(found, v) then after else totals, found, volumes + [v])
  {
    var q := volumes + [v];
    OneVolumeMore(found, volumes, v);
    if Accepted(found, v) {
      var after := totals[v.podKey := Total(totals, v.podKey) + CapacityOf(found, v)];
      forall k ensures Total(after, k) == Claimed(found, q, |q|, k) {
        TotalAdded(totals, v.podKey, CapacityOf(found, v), k);
      }
    } else {
      forall k ensures Total(totals, k) == Claimed(found, q, |q|, k) {
        assert CapacityOf(found, v) == 0;
      }
    }
  }

  /** An accepted volume adds a reference to the first claim with its name. */
  lemma RefsStayRight(pvcs: seq<Pvc>, found: seq<Pvc>, volumes: seq<Volume>, v: Volume)
    requires RefsRight(pvcs, found, volumes) && SameClaims(pvcs, found)
    ensures var i := FirstNamed(pvcs, v.claim, 0);
      RefsRight(if Accepted(found, v) then pvcs[i := pvcs[i].(refs := pvcs[i].refs + [v.podKey])] else pvcs,
                found, volumes + [v])
  {
    OneVolumeMore(found, volumes, v);
    SameFirst(pvcs, found, v.claim, 0);
    if Accepted(found, v) {
      RefAdded(pvcs, FirstNamed(pvcs, v.claim, 0), v.podKey);
    }
  }

  lemma OneVolumeMore(pvcs: seq<Pvc>, before: seq<Volume>, v: Volume)
    ensures forall k :: Claimed(pvcs, before + [v], |before| + 1, k)
                        == Claimed(pvcs, before, |before|, k) + if v.podKey == k then CapacityOf(pvcs, v) else 0
    ensures forall k :: HasVolume(pvcs, before + [v], k) <==>
                        HasVolume(pvcs, before, k) || (v.podKey == k && Accepted(pvcs, v))
  {
    var q := before + [v];
    forall k
      ensures Claimed(pvcs, q, |q|, k)
              == Claimed(pvcs, before, |before|, k) + if v.podKey == k then CapacityOf(pvcs, v) else 0
    {
      ClaimedPrefix(pvcs, before, v, |before|, k);
    }
    forall k ensures HasVolume(pvcs, q, k) <==> HasVolume(pvcs, before, k) || (v.podKey == k && Accepted(pvcs, v)) {
      if HasVolume(pvcs, before, k) {
        var i :| 0 <= i < |before| && before[i].podKey == k && Accepted(pvcs, before[i]);
        assert q[i] == before[i];
      }
      assert q[|before|] == v;
    }
  }

  lemma {:induction false} ClaimedPrefix(pvcs: seq<Pvc>, before: seq<Volume>, v: Volume, n: nat, k: string)
    requires n <= |before|
    ensures Claimed(pvcs, before + [v], n, k) == Claimed(pvcs, before, n, k)
  {
    if n > 0 {
      ClaimedPrefix(pvcs, before, v, n - 1, k);
    }
  }

  lemma RefAdded(pvcs: seq<Pvc>, i: nat, podKey: string)
    requires i < |pvcs|
    ensures forall k :: Referenced(pvcs[i := pvcs[i].(refs := pvcs[i].refs + [podKey])], k) <==>
                        Referenced(pvcs, k) || k == podKey
  {
    var q := pvcs[i := pvcs[i].(refs := pvcs[i].refs + [podKey])];
    assert podKey in q[i].refs;
    forall k ensures Referenced(q, k) <==> Referenced(pvcs, k) || k == podKey {
      if Referenced(pvcs, k) {
        var j :| 0 <= j < |pvcs| && k in pvcs[j].refs;
        assert k in q[j].refs;
      }
      if Referenced(q, k) && k != podKey {
        var j :| 0 <= j < |q| && k in q[j].refs;
        assert k in pvcs[j].refs;
      }
    }
  }
}
