/** Splitting a pod's metric over its containers, in place. */
module MetricSplit {

  datatype SamplePair = SamplePair(timestamp: int, value: real)

  type Metric = map<string, string>

  /** A time series as a value. */
  datatype Stream = Stream(metric: Metric, values: seq<SamplePair>)

  function Label(m: Metric, name: string): string {
    if name in m then m[name] else ""
  }

  function PodKey(m: Metric): string {
    Label(m, "namespace") + "/" + Label(m, "pod")
  }

  /** Pods by namespace/name, with the names of their containers. */
  type Pods = map<string, seq<string>>

  ghost predicate HaveContainers(pods: Pods) {
    forall k :: k in pods ==> pods[k] != []
  }

  // ----- One value -----

  function Truncate(x: real): int {
    if x >= 0.0 then x.Floor else -((-x).Floor)
  }

  /** math.Mod: the remainder takes the sign of the dividend. */
  function Mod(v: real, n: nat): real
    requires n > 0
  {
    v - (n as real) * (Truncate(v / n as real) as real)
  }

  function EqualSplit(v: real, n: nat): real
    requires n > 0
  {
    (v / n as real).Floor as real
  }

  function FirstShare(v: real, n: nat): real
    requires n > 0
  {
    if Mod(v, n) > 0.0 then EqualSplit(v, n) + Mod(v, n) else EqualSplit(v, n)
  }

  lemma Scale(d: real, a: real, b: real)
    requires d > 0.0 && a <= b
    ensures d * a <= d * b
  {
  }

  lemma ScaleStrictly(d: real, a: real, b: real)
    requires d > 0.0 && a < b
    ensures d * a < d * b
  {
  }

  lemma OneMore(d: real, e: real)
    ensures d * (e + 1.0) == d * e + d
  {
  }

  lemma FloorIsBelow(v: real, d: real, q: real, e: real)
    requires d > 0.0 && v == d * q && e <= q
    ensures d * e <= v
  {
    Scale(d, e, q);
  }

  lemma FloorIsNear(v: real, d: real, q: real, e: real)
    requires d > 0.0 && v == d * q && q < e + 1.0
    ensures v < d * e + d
  {
    ScaleStrictly(d, q, e + 1.0);
    OneMore(d, e);
  }

  lemma QuotientNatural(v: real, d: real)
    requires d > 0.0 && v >= 0.0
    ensures v / d >= 0.0 && v == d * (v / d)
  {
  }

  lemma ModOfNatural(v: real, n: nat)
    requires n > 0 && v >= 0.0
    ensures 0.0 <= Mod(v, n) < n as real && Mod(v, n) == v - (n as real) * EqualSplit(v, n)
  {
    var q := v / n as real;
    QuotientNatural(v, n as real);
    assert Truncate(q) == q.Floor;
    FloorIsBelow(v, n as real, q, q.Floor as real);
    FloorIsNear(v, n as real, q, q.Floor as real);
  }

  lemma ModOfNegative(v: real, n: nat)
    requires n > 0 && v < 0.0
    ensures Mod(v, n) <= 0.0
  {
    var d := n as real;
    var q := v / d;
    assert v == d * q;
    Scale(d, (-q).Floor as real, -q);
  }

  /** The shares of one value sum to it if and only if it is not negative or divides evenly. */
  lemma SharesSumIff(v: real, n: nat)
    requires n > 0
    ensures FirstShare(v, n) + ((n - 1) as real) * EqualSplit(v, n) == v <==>
              v >= 0.0 || v == (n as real) * EqualSplit(v, n)
    ensures v >= 0.0 ==> EqualSplit(v, n) <= FirstShare(v, n) < EqualSplit(v, n) + n as real
  {
    var d, e := n as real, EqualSplit(v, n);
    assert (d - 1.0) * e == d * e - e;
    if v >= 0.0 {
      ModOfNatural(v, n);
    } else {
      ModOfNegative(v, n);
    }
  }

  // ----- One stream -----

  function FirstShares(values: seq<SamplePair>, n: nat): seq<SamplePair>
    requires n > 0
  {
    seq(|values|, i requires 0 <= i < |values| => values[i].(value := FirstShare(values[i].value, n)))
  }

  function EqualShares(values: seq<SamplePair>, n: nat): seq<SamplePair>
    requires n > 0
  {
    seq(|values|, i requires 0 <= i < |values| => values[i].(value := EqualSplit(values[i].value, n)))
  }

  /** What container number `i` of `names` gets of a stream. */
  function Share(s: Stream, names: seq<string>, i: nat): Stream
    requires i < |names|
  {
    Stream(s.metric["container" := names[i]],
           if |names| == 1 then s.values
           else if i == 0 then FirstShares(s.values, |names|)
           else EqualShares(s.values, |names|))
  }

  function Shares(s: Stream, names: seq<string>): (r: seq<Stream>)
    ensures |r| == |names| && forall i :: 0 <= i < |r| ==> r[i] == Share(s, names, i)
  {
    seq(|names|, i requires 0 <= i < |names| => Share(s, names, i))
  }

  /** What becomes of one stream: shares for the containers of a known pod, nothing for an unknown one. */
  function Pieces(s: Stream, pods: Pods): seq<Stream> {
    if PodKey(s.metric) in pods then Shares(s, pods[PodKey(s.metric)]) else []
  }

  function SplitTo(streams: seq<Stream>, n: nat, pods: Pods): seq<Stream>
    requires n <= |streams|
  {
    if n == 0 then [] else SplitTo(streams, n - 1, pods) + Pieces(streams[n - 1], pods)
  }

  function SplitAll(streams: seq<Stream>, pods: Pods): seq<Stream> {
    SplitTo(streams, |streams|, pods)
  }

  /** Sum of the values of several series at one step. */
  function SumAt(streams: seq<Stream>, t: nat): real
    requires forall i :: 0 <= i < |streams| ==> t < |streams[i].values|
  {
    if streams == [] then 0.0
    else SumAt(streams[..|streams| - 1], t) + streams[|streams| - 1].values[t].value
  }

  function Times(k: nat, e: real): real {
    if k == 0 then 0.0 else Times(k - 1, e) + e
  }

  lemma {:induction false} TimesIsProduct(k: nat, e: real)
    ensures Times(k, e) == (k as real) * e
  {
    if k > 0 {
      TimesIsProduct(k - 1, e);
      assert (k as real) * e == ((k - 1) as real) * e + e;
    }
  }

  lemma {:induction false} SumOfShares(q: seq<Stream>, k: nat, t: nat, first: real, rest: real)
    requires 1 <= k <= |q|
    requires forall i :: 0 <= i < |q| ==> t < |q[i].values| && q[i].values[t].value == if i == 0 then first else rest
    ensures SumAt(q[..k], t) == first + Times(k - 1, rest)
  {
    if k == 1 {
      assert q[..1][..0] == [];
    } else {
      SumOfShares(q, k - 1, t, first, rest);
      assert q[..k][..k - 1] == q[..k - 1];
    }
  }

  lemma SharesAt(s: Stream, names: seq<string>, t: nat)
    requires names != [] && t < |s.values|
    ensures var q := Shares(s, names); var v := s.values[t].value; var n := |names|;
      forall i :: 0 <= i < |q| ==>
        && t < |q[i].values| && q[i].values[t].timestamp == s.values[t].timestamp
        && q[i].values[t].value == if n == 1 then v else if i == 0 then FirstShare(v, n) else EqualSplit(v, n)
  {
  }

  lemma SharesTotal(s: Stream, names: seq<string>, t: nat)
    requires names != [] && t < |s.values|
    ensures forall i :: 0 <= i < |names| ==> t < |Shares(s, names)[i].values|
    ensures var v := s.values[t].value; var n := |names|;
      SumAt(Shares(s, names), t) == if n == 1 then v else FirstShare(v, n) + Times(n - 1, EqualSplit(v, n))
  {
    var q, v, n := Shares(s, names), s.values[t].value, |names|;
    SharesAt(s, names, t);
    assert q[..n] == q;
    SumOfShares(q, n, t, if n == 1 then v else FirstShare(v, n), EqualSplit(v, n));
  }

  /** The share of a value that splits without loss. */
  ghost predicate Conserved(v: real, n: nat)
    requires n > 0
  {
    n == 1 || v >= 0.0 || v == (n as real) * EqualSplit(v, n)
  }

  lemma TimesConserveIff(v: real, n: nat)
    requires n > 1
    ensures FirstShare(v, n) + Times(n - 1, EqualSplit(v, n)) == v <==> Conserved(v, n)
  {
    TimesIsProduct(n - 1, EqualSplit(v, n));
    SharesSumIff(v, n);
  }

  /** Splitting conserves value: at every step the containers' values sum to the pod's, if and only if the value is
      not negative or divides evenly. */
  lemma SplitConservesIff(s: Stream, names: seq<string>, t: nat)
    requires names != [] && t < |s.values|
    ensures forall i :: 0 <= i < |names| ==> t < |Shares(s, names)[i].values|
    ensures SumAt(Shares(s, names), t) == s.values[t].value <==> Conserved(s.values[t].value, |names|)
  {
    SharesTotal(s, names, t);
    if |names| > 1 {
      TimesConserveIff(s.values[t].value, |names|);
    }
  }

  /** A negative sample that is lost: over two containers -1 becomes -1 and -1. */
  lemma NegativeIsNotConserved(metric: Metric, a: string, b: string)
    ensures var s := Stream(metric, [SamplePair(0, -1.0)]); var q := Shares(s, [a, b]);
      |q[0].values| == |q[1].values| == 1 && SumAt(q, 0) == -2.0 && s.values[0].value == -1.0
  {
    var s := Stream(metric, [SamplePair(0, -1.0)]);
    var half: real := -1.0 / 2.0;
    assert half == -0.5 && half.Floor == -1 && Truncate(half) == 0;
    assert EqualSplit(-1.0, 2) == -1.0 && Mod(-1.0, 2) == -1.0 && FirstShare(-1.0, 2) == -1.0;
    SharesTotal(s, [a, b], 0);
    assert Times(1, -1.0) == -1.0;
  }

  // ----- The streams in memory -----

  class SampleStream {
    var metric: Metric
    var values: array<SamplePair>

    constructor (metric: Metric, values: array<SamplePair>)
      ensures this.metric == metric && this.values == values
    {
      this.metric, this.values := metric, values;
    }

    ghost function Snap(): Stream
      reads this, values
    {
      Stream(metric, values[..])
    }
  }

  ghost function Snaps(q: seq<SampleStream>): (r: seq<Stream>)
    reads q, set s | s in q :: s.values
    ensures |r| == |q| && forall i :: 0 <= i < |q| ==> r[i] == q[i].Snap()
  {
    if q == [] then [] else Snaps(q[..|q| - 1]) + [q[|q| - 1].Snap()]
  }

  /** The loop that divides the values: the stream keeps the first shares, the equal shares are returned. */
  method DivideValues(sample: SampleStream, n: nat) returns (splitValues: array<real>)
    requires n > 0
    modifies sample.values
    ensures fresh(splitValues) && splitValues.Length == sample.values.Length
    ensures sample.values[..] == FirstShares(old(sample.values[..]), n)
    ensures forall j :: 0 <= j < splitValues.Length ==> splitValues[j] == EqualSplit(old(sample.values[j].value), n)
  {
    var a := sample.values;
    var origValues := new real[a.Length](j requires 0 <= j < a.Length reads a => a[j].value);
    splitValues := new real[a.Length](_ => 0.0);
    for i := 0 to a.Length
      invariant forall j :: 0 <= j < i ==> a[j] == old(a[j]).(value := FirstShare(old(a[j].value), n))
      invariant forall j :: i <= j < a.Length ==> a[j] == old(a[j])
      invariant forall j :: 0 <= j < i ==> splitValues[j] == EqualSplit(old(a[j].value), n)
      invariant forall j :: 0 <= j < a.Length ==> origValues[j] == old(a[j].value)
    {
      var remainder := Mod(origValues[i], n);
      var equalSplit := EqualSplit(origValues[i], n);
      a[i] := a[i].(value := if remainder > 0.0 then equalSplit + remainder else equalSplit);
      splitValues[i] := equalSplit;
    }
  }

  /** A further container's stream: the first container's labels and timestamps with the equal shares. */
  method NewShare(sample: SampleStream, name: string, splitValues: array<real>) returns (s: SampleStream)
    requires splitValues.Length == sample.values.Length
    ensures fresh(s) && fresh(s.values) && s.metric == sample.metric["container" := name]
    ensures s.values.Length == splitValues.Length
    ensures forall j :: 0 <= j < s.values.Length ==>
                          s.values[j] == SamplePair(sample.values[j].timestamp, splitValues[j])
  {
    var a := sample.values;
    var values := new SamplePair[splitValues.Length](
      j requires 0 <= j < a.Length == splitValues.Length reads a, splitValues =>
      SamplePair(a[j].timestamp, splitValues[j]));
    s := new SampleStream(sample.metric["container" := name], values);
  }

  /** The body of the loop for one stream: it changes the stream itself and adds streams for further containers. */
  method SplitInPlace(sample: SampleStream, names: seq<string>) returns (out: seq<SampleStream>)
    requires names != []
    modifies sample`metric, sample.values
    ensures |out| == |names|
    ensures forall i :: 0 <= i < |names| ==> out[i].Snap() == Share(old(sample.Snap()), names, i)
    ensures forall o :: o in out ==> (o == sample || fresh(o)) && (o.values == sample.values || fresh(o.values))
  {
    ghost var s := sample.Snap();
    sample.metric := sample.metric["container" := names[0]];
    out := [sample];
    if |names| == 1 {
      return;
    }
    var splitValues := DivideValues(sample, |names|);
    assert sample.Snap() == Share(s, names, 0);
    for c := 1 to |names|
      invariant |out| == c && out[0] == sample && splitValues.Length == |s.values|
      invariant forall j :: 0 <= j < |s.values| ==> splitValues[j] == EqualSplit(s.values[j].value, |names|)
      invariant sample.Snap() == Share(s, names, 0)
      invariant forall i :: 0 < i < c ==> fresh(out[i]) && fresh(out[i].values)
      invariant forall i :: 0 <= i < c ==> out[i].Snap() == Share(s, names, i)
    {
      var next := NewShare(sample, names[c], splitValues);
      assert next.Snap() == Share(s, names, c) by {
        assert next.metric == s.metric["container" := names[c]];
        assert next.values[..] == EqualShares(s.values, |names|);
      }
      out := out + [next];
    }
  }

  ghost predicate Distinct(metrics: seq<SampleStream>)
    reads metrics
  {
    forall i, j :: 0 <= i < j < |metrics| ==> metrics[i] != metrics[j] && metrics[i].values != metrics[j].values
  }

  ghost predicate Shows(out: seq<SampleStream>, spec: seq<Stream>)
    reads out, set s | s in out :: s.values
  {
    |out| == |spec| && forall k :: 0 <= k < |out| ==> out[k].Snap() == spec[k]
  }

  /** None of the streams from `i` on shares storage with `out`. */
  ghost predicate Apart(out: seq<SampleStream>, metrics: seq<SampleStream>, i: nat)
    reads out, metrics
  {
    forall o, j :: o in out && i <= j < |metrics| ==> o != metrics[j] && o.values != metrics[j].values
  }

  /** One turn of the loop. */
  method SplitOne(sample: SampleStream, pods: Pods) returns (more: seq<SampleStream>)
    requires HaveContainers(pods)
    modifies sample`metric, sample.values
    ensures Shows(more, Pieces(old(sample.Snap()), pods))
    ensures forall o :: o in more ==> (o == sample || fresh(o)) && (o.values == sample.values || fresh(o.values))
  {
    var podKey := PodKey(sample.metric);
    if podKey !in pods {
      return [];
    }
    more := SplitInPlace(sample, pods[podKey]);
  }

  lemma ShowsJoin(a: seq<SampleStream>, b: seq<SampleStream>, p: seq<Stream>, q: seq<Stream>)
    requires Shows(a, p) && Shows(b, q)
    ensures Shows(a + b, p + q)
  {
  }

  /** adjustMetricsForMultiContainerPods, for streams that share no storage. */
  method AdjustMetrics(metrics: seq<SampleStream>, pods: Pods) returns (out: seq<SampleStream>)
    requires HaveContainers(pods) && Distinct(metrics)
    modifies metrics, set s | s in metrics :: s.values
    ensures Shows(out, SplitAll(old(Snaps(metrics)), pods))
  {
    ghost var before := Snaps(metrics);
    out := [];
    for i := 0 to |metrics|
      invariant forall j :: 0 <= j < |metrics| ==> metrics[j].values == old(metrics[j].values)
      invariant forall j :: i <= j < |metrics| ==> metrics[j].Snap() == before[j]
      invariant Apart(out, metrics, i)
      invariant Shows(out, SplitTo(before, i, pods))
    {
      ghost var spec := SplitTo(before, i, pods);
      var more := SplitOne(metrics[i], pods);
      assert Shows(out, spec);
      assert forall j :: i + 1 <= j < |metrics| ==> metrics[j].Snap() == before[j];
      ShowsJoin(out, more, spec, Pieces(before[i], pods));
      out := out + more;
    }
  }
}
