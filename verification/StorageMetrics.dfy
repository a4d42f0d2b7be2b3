/** Storage capacity end to end: what a pod's claims add up to is what its containers' entries sum to. */
module StorageMetrics {
  import opened MetricSplit
  import opened Storage

  function EntryKey(namespace: string, pod: string, container: string): string {
    namespace + "/" + pod + "/" + container
  }

  function GetKey(m: Metric): string {
    EntryKey(Label(m, "namespace"), Label(m, "pod"), Label(m, "container"))
  }

  // ----- Folding series into entries, the last one for a key winning -----

  type Entries = map<string, seq<SamplePair>>

  function FoldTo(streams: seq<Stream>, n: nat): Entries
    requires n <= |streams|
  {
    if n == 0 then map[] else FoldTo(streams, n - 1)[GetKey(streams[n - 1].metric) := streams[n - 1].values]
  }

  /** If all series for a key carry the same values, the entry carries them. */
  lemma {:induction false} FoldAgrees(streams: seq<Stream>, n: nat, key: string, values: seq<SamplePair>, at: nat)
    requires at < n <= |streams| && GetKey(streams[at].metric) == key
    requires forall i :: 0 <= i < n && GetKey(streams[i].metric) == key ==> streams[i].values == values
    ensures key in FoldTo(streams, n) && FoldTo(streams, n)[key] == values
  {
    if GetKey(streams[n - 1].metric) != key {
      FoldAgrees(streams, n - 1, key, values, at);
    }
  }

  // ----- Where series come from -----

  lemma {:induction false} RefsStreamsFrom(refs: seq<string>, n: nat, totals: map<string, int>, r: Range, m: Stream)
    returns (ref: string)
    requires n <= |refs| && r.Valid() && m in RefsStreams(refs, n, totals, r)
    ensures ref in refs && m in RefStreams(ref, totals, r)
  {
    ref := refs[n - 1];
    if m !in RefStreams(ref, totals, r) {
      ref := RefsStreamsFrom(refs, n - 1, totals, r, m);
    }
  }

  lemma {:induction false} PvcStreamsFrom(pvcs: seq<Pvc>, n: nat, totals: map<string, int>, r: Range, m: Stream)
    returns (ref: string)
    requires n <= |pvcs| && r.Valid() && m in PvcStreams(pvcs, n, totals, r)
    ensures Referenced(pvcs, ref) && m in RefStreams(ref, totals, r)
  {
    var refs := pvcs[n - 1].refs;
    if m in RefsStreams(refs, |refs|, totals, r) {
      ref := RefsStreamsFrom(refs, |refs|, totals, r, m);
    } else {
      ref := PvcStreamsFrom(pvcs, n - 1, totals, r, m);
    }
  }

  lemma {:induction false} RefsStreamsHave(refs: seq<string>, n: nat, j: nat, totals: map<string, int>,
                                           r: Range, m: Stream)
    requires j < n <= |refs| && r.Valid() && m in RefStreams(refs[j], totals, r)
    ensures m in RefsStreams(refs, n, totals, r)
  {
    if j < n - 1 {
      RefsStreamsHave(refs, n - 1, j, totals, r, m);
    }
  }

  lemma {:induction false} PvcStreamsHave(pvcs: seq<Pvc>, n: nat, i: nat, ref: string, totals: map<string, int>,
                                          r: Range, m: Stream)
    requires i < n <= |pvcs| && r.Valid() && ref in pvcs[i].refs && m in RefStreams(ref, totals, r)
    ensures m in PvcStreams(pvcs, n, totals, r)
  {
    if i < n - 1 {
      PvcStreamsHave(pvcs, n - 1, i, ref, totals, r, m);
    } else {
      var j :| 0 <= j < |pvcs[i].refs| && pvcs[i].refs[j] == ref;
      RefsStreamsHave(pvcs[i].refs, |pvcs[i].refs|, j, totals, r, m);
    }
  }

  lemma {:induction false} SplitFrom(streams: seq<Stream>, n: nat, pods: Pods, s: Stream) returns (m: Stream, i: nat)
    requires n <= |streams| && s in SplitTo(streams, n, pods)
    ensures m in streams && PodKey(m.metric) in pods
    ensures i < |pods[PodKey(m.metric)]| && s == Share(m, pods[PodKey(m.metric)], i)
  {
    m := streams[n - 1];
    if s in Pieces(m, pods) {
      i :| 0 <= i < |Pieces(m, pods)| && Pieces(m, pods)[i] == s;
    } else {
      m, i := SplitFrom(streams, n - 1, pods, s);
    }
  }

  lemma ShareIsPiece(m: Stream, pods: Pods, i: nat)
    requires PodKey(m.metric) in pods && i < |pods[PodKey(m.metric)]|
    ensures Share(m, pods[PodKey(m.metric)], i) in Pieces(m, pods)
  {
    var pieces := Shares(m, pods[PodKey(m.metric)]);
    assert pieces[i] == Share(m, pods[PodKey(m.metric)], i);
  }

  lemma {:induction false} SplitHas(streams: seq<Stream>, n: nat, pods: Pods, j: nat, piece: Stream)
    requires j < n <= |streams| && piece in Pieces(streams[j], pods)
    ensures piece in SplitTo(streams, n, pods)
  {
    if j < n - 1 {
      SplitHas(streams, n - 1, pods, j, piece);
    }
  }

  // ----- Keys -----

  lemma EntryKeySplits(a: string, b: string, c: string)
    requires SlashFree(a) && SlashFree(b) && SlashFree(c)
    ensures SplitSlash(EntryKey(a, b, c)) == [a, b, c]
  {
    JoinSplits(a, b + "/" + c);
    assert EntryKey(a, b, c) == a + "/" + (b + "/" + c);
    SplitUndoesJoin(b, c);
  }

  lemma {:induction false} JoinSplits(a: string, rest: string)
    requires SlashFree(a)
    ensures SplitSlash(a + "/" + rest) == [a] + SplitSlash(rest)
  {
    var s := a + "/" + rest;
    if a == "" {
      assert s[1..] == rest && s[0] == '/';
    } else {
      assert s[0] == a[0] && s[1..] == a[1..] + "/" + rest;
      JoinSplits(a[1..], rest);
      assert [a[0]] + a[1..] == a;
      assert a[0] in a;
    }
  }

  /** A pod key as the program builds it, from a namespace and a name without slashes. */
  ghost predicate IsPodKey(key: string) {
    exists a, b :: SlashFree(a) && SlashFree(b) && key == a + "/" + b
  }

  ghost predicate DistinctNames(names: seq<string>) {
    forall j, k :: 0 <= j < k < |names| ==> names[j] != names[k]
  }

  ghost predicate PlainContainers(pods: Pods) {
    forall k :: k in pods ==> pods[k] != [] && forall i :: 0 <= i < |pods[k]| ==> SlashFree(pods[k][i])
  }

  // ----- One pod -----

  /** The one series the claims of a pod amount to. */
  function PodStream(namespace: string, pod: string, total: int, r: Range): Stream
    requires r.start <= r.end && r.step > 0
  {
    Stream(map["namespace" := namespace, "pod" := pod], EveryStep(total as real, r))
  }

  lemma RefIsPodStream(ref: string, totals: map<string, int>, r: Range)
    requires IsPodKey(ref) && r.Valid()
    ensures |SplitSlash(ref)| == 2 && SlashFree(SplitSlash(ref)[0]) && SlashFree(SplitSlash(ref)[1])
    ensures ref == SplitSlash(ref)[0] + "/" + SplitSlash(ref)[1]
    ensures RefStreams(ref, totals, r) == [PodStream(SplitSlash(ref)[0], SplitSlash(ref)[1], Total(totals, ref), r)]
  {
    var a, b :| SlashFree(a) && SlashFree(b) && ref == a + "/" + b;
    SplitUndoesJoin(a, b);
  }

  /** Every manufactured series is the series of its pod. */
  lemma SeriesOfPod(pvcs: seq<Pvc>, totals: map<string, int>, r: Range, m: Stream) returns (a: string, b: string)
    requires r.Valid() && m in PvcStreams(pvcs, |pvcs|, totals, r)
    requires forall k :: Referenced(pvcs, k) ==> IsPodKey(k)
    ensures SlashFree(a) && SlashFree(b) && Referenced(pvcs, a + "/" + b)
    ensures m == PodStream(a, b, Total(totals, a + "/" + b), r)
  {
    var ref := PvcStreamsFrom(pvcs, |pvcs|, totals, r, m);
    RefIsPodStream(ref, totals, r);
    a, b := SplitSlash(ref)[0], SplitSlash(ref)[1];
  }

  lemma PodHasSeries(pvcs: seq<Pvc>, totals: map<string, int>, r: Range, ns: string, pod: string)
    requires r.Valid() && SlashFree(ns) && SlashFree(pod) && Referenced(pvcs, ns + "/" + pod)
    ensures PodStream(ns, pod, Total(totals, ns + "/" + pod), r) in PvcStreams(pvcs, |pvcs|, totals, r)
  {
    var key := ns + "/" + pod;
    SplitUndoesJoin(ns, pod);
    assert IsPodKey(key);
    RefIsPodStream(key, totals, r);
    var i :| 0 <= i < |pvcs| && key in pvcs[i].refs;
    PvcStreamsHave(pvcs, |pvcs|, i, key, totals, r, PodStream(ns, pod, Total(totals, key), r));
  }

  ghost predicate IsPodStream(m: Stream, totals: map<string, int>, r: Range)
    requires r.Valid()
  {
    exists a, b :: SlashFree(a) && SlashFree(b) && m == PodStream(a, b, Total(totals, a + "/" + b), r)
  }

  /** A piece of a pod's series is the share of the container that its key names. */
  lemma PieceOfPod(pods: Pods, totals: map<string, int>, r: Range, m: Stream, h: nat)
    returns (a: string, b: string)
    requires r.Valid() && PlainContainers(pods) && IsPodStream(m, totals, r)
    requires PodKey(m.metric) in pods && h < |pods[PodKey(m.metric)]|
    ensures SlashFree(a) && SlashFree(b) && PodKey(m.metric) == a + "/" + b && SlashFree(pods[a + "/" + b][h])
    ensures m == PodStream(a, b, Total(totals, a + "/" + b), r)
    ensures GetKey(Share(m, pods[a + "/" + b], h).metric) == EntryKey(a, b, pods[a + "/" + b][h])
  {
    a, b :| SlashFree(a) && SlashFree(b) && m == PodStream(a, b, Total(totals, a + "/" + b), r);
  }

  lemma EntryKeysTellApart(a: string, b: string, c: string, x: string, y: string, z: string)
    requires SlashFree(a) && SlashFree(b) && SlashFree(c) && SlashFree(x) && SlashFree(y) && SlashFree(z)
    requires EntryKey(a, b, c) == EntryKey(x, y, z)
    ensures a == x && b == y && c == z
  {
    EntryKeySplits(a, b, c);
    EntryKeySplits(x, y, z);
    assert [a, b, c] == [x, y, z];
    assert a == [a, b, c][0] && b == [a, b, c][1] && c == [a, b, c][2];
  }

  /** A split series with the key of a pod's container is that container's share of the pod's series. */
  lemma ShareForKey(streams: seq<Stream>, pods: Pods, totals: map<string, int>, r: Range, ns: string, pod: string,
                    i: nat, s: Stream)
    requires r.Valid() && PlainContainers(pods) && SlashFree(ns) && SlashFree(pod)
    requires forall m :: m in streams ==> IsPodStream(m, totals, r)
    requires ns + "/" + pod in pods && i < |pods[ns + "/" + pod]| && DistinctNames(pods[ns + "/" + pod])
    requires s in SplitAll(streams, pods) && GetKey(s.metric) == EntryKey(ns, pod, pods[ns + "/" + pod][i])
    ensures s == Share(PodStream(ns, pod, Total(totals, ns + "/" + pod), r), pods[ns + "/" + pod], i)
  {
    var m, h := SplitFrom(streams, |streams|, pods, s);
    var a, b := PieceOfPod(pods, totals, r, m, h);
    EntryKeysTellApart(a, b, pods[a + "/" + b][h], ns, pod, pods[ns + "/" + pod][i]);
  }

  lemma EntryIsShare(pvcs: seq<Pvc>, totals: map<string, int>, pods: Pods, r: Range, ns: string, pod: string, i: nat)
    requires r.Valid() && PlainContainers(pods) && SlashFree(ns) && SlashFree(pod)
    requires forall k :: Referenced(pvcs, k) ==> IsPodKey(k)
    requires Referenced(pvcs, ns + "/" + pod) && ns + "/" + pod in pods && i < |pods[ns + "/" + pod]|
    requires DistinctNames(pods[ns + "/" + pod])
    ensures var split := SplitAll(PvcStreams(pvcs, |pvcs|, totals, r), pods);
      var entries := FoldTo(split, |split|);
      var key := EntryKey(ns, pod, pods[ns + "/" + pod][i]);
      key in entries
      && entries[key] == Share(PodStream(ns, pod, Total(totals, ns + "/" + pod), r), pods[ns + "/" + pod], i).values
  {
    var streams := PvcStreams(pvcs, |pvcs|, totals, r);
    var split := SplitAll(streams, pods);
    var names := pods[ns + "/" + pod];
    var p := PodStream(ns, pod, Total(totals, ns + "/" + pod), r);
    var key := EntryKey(ns, pod, names[i]);
    PodHasSeries(pvcs, totals, r, ns, pod);
    var j :| 0 <= j < |streams| && streams[j] == p;
    assert PodKey(p.metric) == ns + "/" + pod;
    ShareIsPiece(p, pods, i);
    SplitHas(streams, |streams|, pods, j, Share(p, names, i));
    var at :| 0 <= at < |split| && split[at] == Share(p, names, i);
    assert GetKey(split[at].metric) == key;
    forall m | m in streams ensures IsPodStream(m, totals, r) {
      var a, b := SeriesOfPod(pvcs, totals, r, m);
    }
    forall h | 0 <= h < |split| && GetKey(split[h].metric) == key ensures split[h].values == Share(p, names, i).values {
      ShareForKey(streams, pods, totals, r, ns, pod, i, split[h]);
    }
    FoldAgrees(split, |split|, key, Share(p, names, i).values, at);
  }

  // ----- All containers of a pod -----

  /** The storage values of a pod's first `n` containers at one step, added up. */
  ghost function EntrySum(entries: Entries, ns: string, pod: string, names: seq<string>, n: nat, t: nat): real
    requires n <= |names|
    requires forall i :: 0 <= i < n ==> HasValueAt(entries, EntryKey(ns, pod, names[i]), t)
  {
    if n == 0 then 0.0
    else
      assert HasValueAt(entries, EntryKey(ns, pod, names[n - 1]), t);
      EntrySum(entries, ns, pod, names, n - 1, t) + entries[EntryKey(ns, pod, names[n - 1])][t].value
  }

  ghost predicate HasValueAt(entries: Entries, key: string, t: nat) {
    key in entries && t < |entries[key]|
  }

  lemma {:induction false} EntrySumIsSumAt(entries: Entries, ns: string, pod: string, names: seq<string>,
                                           q: seq<Stream>, n: nat, t: nat)
    requires n <= |names| == |q|
    requires forall i :: 0 <= i < |q| ==> t < |q[i].values|
    requires forall i :: 0 <= i < |names| ==>
               var key := EntryKey(ns, pod, names[i]); HasValueAt(entries, key, t) && entries[key] == q[i].values
    ensures EntrySum(entries, ns, pod, names, n, t) == SumAt(q[..n], t)
  {
    if n > 0 {
      EntrySumIsSumAt(entries, ns, pod, names, q, n - 1, t);
      assert q[..n][..n - 1] == q[..n - 1];
    }
  }

  /** The claims are added up: totals per pod, and a reference for each pod that claims something. */
  ghost predicate AddedUp(pvcs: seq<Pvc>, totals: map<string, int>, found: seq<Pvc>, volumes: seq<Volume>) {
    && TotalsRight(totals, found, volumes)
    && RefsRight(pvcs, found, volumes)
    && (forall i :: 0 <= i < |volumes| ==> IsPodKey(volumes[i].podKey))
  }

  ghost function StorageEntries(pvcs: seq<Pvc>, totals: map<string, int>, pods: Pods, r: Range): Entries
    requires r.Valid()
  {
    var split := SplitAll(PvcStreams(pvcs, |pvcs|, totals, r), pods);
    FoldTo(split, |split|)
  }

  ghost predicate PodStep(t: nat, r: Range)
    requires r.Valid()
  {
    t < r.Steps()
  }

  /** The pod's containers have storage values at step `t` that sum to the capacity of the claims that its volumes
      select, the first by name, unless that does not split. They sum to the pod's own claims if and only if the
      capacities of the claims selected add up to those of its own, as they do if each volume selects its own. */
  ghost predicate SumsToClaims(entries: Entries, found: seq<Pvc>, volumes: seq<Volume>, ns: string, pod: string,
                               names: seq<string>, t: nat)
    requires names != []
  {
    var claimed := Claimed(found, volumes, |volumes|, ns + "/" + pod);
    var own := OwnClaimed(found, volumes, |volumes|, ns + "/" + pod);
    && (forall i :: 0 <= i < |names| ==> HasValueAt(entries, EntryKey(ns, pod, names[i]), t))
    && (EntrySum(entries, ns, pod, names, |names|, t) == claimed as real <==> Conserved(claimed as real, |names|))
    && (Conserved(claimed as real, |names|) ==>
          (EntrySum(entries, ns, pod, names, |names|, t) == own as real <==> claimed == own))
    && ((forall i :: 0 <= i < |volumes| && volumes[i].podKey == ns + "/" + pod ==> SelectsOwn(found, volumes[i])) ==>
          claimed == own)
  }

  /** For every pod with a claim, the storage values of its containers sum to the capacity of all its claims at every
      step, if and only if that capacity splits without loss; in particular whenever it is not negative. */
  lemma ContainersSumToClaims(pvcs: seq<Pvc>, totals: map<string, int>, found: seq<Pvc>, volumes: seq<Volume>,
                              pods: Pods, r: Range, ns: string, pod: string, t: nat)
    requires r.Valid() && t < r.Steps() && AddedUp(pvcs, totals, found, volumes)
    requires PlainContainers(pods) && SlashFree(ns) && SlashFree(pod) && ns + "/" + pod in pods
    requires DistinctNames(pods[ns + "/" + pod]) && HasVolume(found, volumes, ns + "/" + pod)
    ensures SumsToClaims(StorageEntries(pvcs, totals, pods, r), found, volumes, ns, pod, pods[ns + "/" + pod], t)
  {
    var key := ns + "/" + pod;
    var names := pods[key];
    var entries := StorageEntries(pvcs, totals, pods, r);
    var p := PodStream(ns, pod, Total(totals, key), r);
    var q := Shares(p, names);
    forall i | 0 <= i < |names|
      ensures var k := EntryKey(ns, pod, names[i]); k in entries && entries[k] == q[i].values
    {
      EntryIsShare(pvcs, totals, pods, r, ns, pod, i);
    }
    SplitConservesIff(p, names, t);
    if forall i :: 0 <= i < |volumes| && volumes[i].podKey == key ==> SelectsOwn(found, volumes[i]) {
      OwnVolumesGiveOwnClaims(found, volumes, |volumes|, key);
    }
    EntrySumIsSumAt(entries, ns, pod, names, q, |names|, t);
    assert q[..|names|] == q;
  }

  lemma {:induction false} FoldedFrom(streams: seq<Stream>, n: nat, key: string) returns (i: nat)
    requires n <= |streams| && key in FoldTo(streams, n)
    ensures i < n && GetKey(streams[i].metric) == key
  {
    i := n - 1;
    if GetKey(streams[i].metric) != key {
      i := FoldedFrom(streams, n - 1, key);
    }
  }

  /** A container gets a storage entry only if its pod has a claim and is known. */
  lemma EntryNeedsClaim(pvcs: seq<Pvc>, totals: map<string, int>, found: seq<Pvc>, volumes: seq<Volume>, pods: Pods,
                        r: Range, ns: string, pod: string, container: string)
    requires r.Valid() && AddedUp(pvcs, totals, found, volumes) && PlainContainers(pods)
    requires SlashFree(ns) && SlashFree(pod) && SlashFree(container)
    requires EntryKey(ns, pod, container) in StorageEntries(pvcs, totals, pods, r)
    ensures HasVolume(found, volumes, ns + "/" + pod)
    ensures ns + "/" + pod in pods && container in pods[ns + "/" + pod]
  {
    var streams := PvcStreams(pvcs, |pvcs|, totals, r);
    var split := SplitAll(streams, pods);
    var at := FoldedFrom(split, |split|, EntryKey(ns, pod, container));
    var m, h := SplitFrom(streams, |streams|, pods, split[at]);
    var a, b := SeriesOfPod(pvcs, totals, r, m);
    assert PodKey(m.metric) == a + "/" + b;
    EntryKeysTellApart(a, b, pods[a + "/" + b][h], ns, pod, container);
  }

  // ----- The storage part of GetMetrics -----

  method InMemory(streams: seq<Stream>) returns (metrics: seq<SampleStream>)
    ensures Distinct(metrics) && Snaps(metrics) == streams
    ensures forall s :: s in metrics ==> fresh(s) && fresh(s.values)
  {
    metrics := [];
    for i := 0 to |streams|
      invariant |metrics| == i && Distinct(metrics)
      invariant forall s :: s in metrics ==> fresh(s) && fresh(s.values)
      invariant forall j :: 0 <= j < i ==> metrics[j].Snap() == streams[j]
    {
      var values := streams[i].values;
      var a := new SamplePair[|values|](j requires 0 <= j < |values| => values[j]);
      var s := new SampleStream(streams[i].metric, a);
      assert a[..] == values;
      metrics := metrics + [s];
    }
  }

  /** Every known pod with a claim and distinct container names has its claims spread over its containers. */
  ghost predicate ClaimsAreSpread(entries: Entries, found: seq<Pvc>, volumes: seq<Volume>, pods: Pods, r: Range)
    requires r.Valid() && PlainContainers(pods)
  {
    forall ns, pod, t: nat {:trigger SlashFree(ns), SlashFree(pod), PodStep(t, r)} ::
      PodStep(t, r) && SlashFree(ns) && SlashFree(pod) && ns + "/" + pod in pods
      && DistinctNames(pods[ns + "/" + pod]) && HasVolume(found, volumes, ns + "/" + pod) ==>
        SumsToClaims(entries, found, volumes, ns, pod, pods[ns + "/" + pod], t)
  }

  lemma EntriesSpreadClaims(pvcs: seq<Pvc>, totals: map<string, int>, found: seq<Pvc>, volumes: seq<Volume>,
                            pods: Pods, r: Range)
    requires r.Valid() && PlainContainers(pods) && AddedUp(pvcs, totals, found, volumes)
    ensures ClaimsAreSpread(StorageEntries(pvcs, totals, pods, r), found, volumes, pods, r)
  {
    forall ns, pod, t: nat | PodStep(t, r) && SlashFree(ns) && SlashFree(pod) && ns + "/" + pod in pods
              && DistinctNames(pods[ns + "/" + pod]) && HasVolume(found, volumes, ns + "/" + pod)
      ensures SumsToClaims(StorageEntries(pvcs, totals, pods, r), found, volumes, ns, pod, pods[ns + "/" + pod], t)
    {
      ContainersSumToClaims(pvcs, totals, found, volumes, pods, r, ns, pod, t);
    }
  }

  /** The loop over the pods' volumes. */
  method AddVolumes(found: seq<Pvc>, volumes: seq<Volume>) returns (info: StorageInfo)
    requires forall i :: 0 <= i < |found| ==> found[i].refs == []
    ensures fresh(info) && info.Valid() && info.found == found && info.volumes == volumes
  {
    info := new StorageInfo(found);
    for i := 0 to |volumes|
      invariant fresh(info) && info.Valid() && info.found == found && info.volumes == volumes[..i]
    {
      info.AddPVCRef(volumes[i].claim, volumes[i].podKey);
    }
    assert volumes[..|volumes|] == volumes;
  }

  /** The loop that folds the split streams. */
  method FoldInMemory(out: seq<SampleStream>, ghost split: seq<Stream>) returns (entries: Entries)
    requires Shows(out, split)
    ensures entries == FoldTo(split, |split|)
  {
    entries := map[];
    for i := 0 to |out|
      invariant entries == FoldTo(split, i)
    {
      assert out[i].Snap() == split[i];
      entries := entries[GetKey(out[i].metric) := out[i].values[..]];
    }
  }

  /** From the claims found and the pods' volumes to the storage value of each container. */
  method GetStorage(found: seq<Pvc>, volumes: seq<Volume>, pods: Pods, r: Range) returns (entries: Entries)
    requires r.Valid() && PlainContainers(pods)
    requires forall i :: 0 <= i < |found| ==> found[i].refs == []
    requires forall i :: 0 <= i < |volumes| ==> IsPodKey(volumes[i].podKey)
    ensures ClaimsAreSpread(entries, found, volumes, pods, r)
  {
    var info := AddVolumes(found, volumes);
    EntriesSpreadClaims(info.pvcs, info.totalCapacityPerPod, found, volumes, pods, r);
    var streams := info.ManufactureMetrics(r);
    var metrics := InMemory(streams);
    var out := AdjustMetrics(metrics, pods);
    entries := FoldInMemory(out, SplitAll(streams, pods));
  }
}
