/** The byte delta tracker: turns the cumulative counters that a gadget reports poll by poll into increments,
    per connection and direction, over the life of each connection. */
module DeltaTracker {
  import opened Options

  const U64: int := 0x1_0000_0000_0000_0000
  type uint64 = x: int | 0 <= x < U64

  /** Unsigned 64-bit addition. */
  function Add64(a: uint64, b: uint64): uint64 {
    (a + b) % U64
  }

  datatype Endpoints = Endpoints(namespace: string, pod: string, container: string,
                                 srcAddr: string, srcPort: nat, dstAddr: string, dstPort: nat)
  datatype ConnKey = ConnKey(endpoints: Endpoints, pid: nat)

  datatype TCPFields = TCPFields(key: ConnKey, timestamp: int, bytesSent: uint64, bytesReceived: uint64)

  datatype Direction = Sent | Received

  function Reading(f: TCPFields, d: Direction): uint64 {
    if d.Sent? then f.bytesSent else f.bytesReceived
  }

  datatype ConnState = ConnState(fields: TCPFields, lastSent: uint64, lastReceived: uint64,
                                 emittedSent: uint64, emittedReceived: uint64, seen: bool)
  {
    function Last(d: Direction): uint64 { if d.Sent? then lastSent else lastReceived }
    function Emitted(d: Direction): uint64 { if d.Sent? then emittedSent else emittedReceived }
  }

  datatype ByteDelta = ByteDelta(fields: TCPFields, sent: uint64, received: uint64)
  {
    function Bytes(d: Direction): uint64 { if d.Sent? then sent else received }
  }

  function DiffCumulative(prev: uint64, current: uint64): uint64 {
    if current >= prev then current - prev else current
  }

  function RemainingBytes(emitted: uint64, last: uint64): uint64 {
    if last >= emitted then last - emitted else last
  }

  // ----- One connection -----

  /** What one Observe does to the record of its connection. */
  function Observed(st: Option<ConnState>, f: TCPFields): ConnState {
    match st
    case None => ConnState(f, f.bytesSent, f.bytesReceived, 0, 0, true)
    case Some(s) =>
      ConnState(f, f.bytesSent, f.bytesReceived,
                Add64(s.emittedSent, DiffCumulative(s.lastSent, f.bytesSent)),
                Add64(s.emittedReceived, DiffCumulative(s.lastReceived, f.bytesReceived)), true)
  }

  /** The bytes one Observe reports. */
  function ObservedBytes(st: Option<ConnState>, f: TCPFields, d: Direction): nat {
    match st
    case None => 0
    case Some(s) => DiffCumulative(s.Last(d), Reading(f, d))
  }

  function AfterObservations(st: Option<ConnState>, obs: seq<TCPFields>, k: ConnKey): Option<ConnState> {
    if obs == [] then st
    else
      var before := AfterObservations(st, obs[..|obs| - 1], k);
      var f := obs[|obs| - 1];
      if f.key == k then Some(Observed(before, f)) else before
  }

  function ObservationBytes(st: Option<ConnState>, obs: seq<TCPFields>, k: ConnKey, d: Direction): nat {
    if obs == [] then 0
    else
      var front := obs[..|obs| - 1];
      var f := obs[|obs| - 1];
      ObservationBytes(st, front, k, d)
      + if f.key == k then ObservedBytes(AfterObservations(st, front, k), f, d) else 0
  }

  function Unseen(st: Option<ConnState>): Option<ConnState> {
    match st
    case None => None
    case Some(s) => Some(s.(seen := false))
  }

  function Kept(st: Option<ConnState>): Option<ConnState> {
    if st.Some? && st.value.seen then st else None
  }

  function FlushedBytes(st: Option<ConnState>, d: Direction): nat {
    if st.Some? && !st.value.seen then RemainingBytes(st.value.Emitted(d), st.value.Last(d)) else 0
  }

  function AfterPoll(st: Option<ConnState>, poll: seq<TCPFields>, k: ConnKey): Option<ConnState> {
    Kept(AfterObservations(Unseen(st), poll, k))
  }

  function PollBytes(st: Option<ConnState>, poll: seq<TCPFields>, k: ConnKey, d: Direction): nat {
    ObservationBytes(Unseen(st), poll, k, d) + FlushedBytes(AfterObservations(Unseen(st), poll, k), d)
  }

  function AfterRun(polls: seq<seq<TCPFields>>, k: ConnKey): Option<ConnState> {
    if polls == [] then None
    else AfterPoll(AfterRun(polls[..|polls| - 1], k), polls[|polls| - 1], k)
  }

  function RunBytes(polls: seq<seq<TCPFields>>, k: ConnKey, d: Direction): nat {
    if polls == [] then 0
    else
      var before := polls[..|polls| - 1];
      RunBytes(before, k, d) + PollBytes(AfterRun(before, k), polls[|polls| - 1], k, d)
  }

  // ----- Lives: what the gadget saw, without reference to the tracker -----

  function ReadingsOf(poll: seq<TCPFields>, k: ConnKey): (r: seq<TCPFields>)
    ensures forall i :: 0 <= i < |r| ==> r[i].key == k
  {
    if poll == [] then []
    else
      var front := ReadingsOf(poll[..|poll| - 1], k);
      if poll[|poll| - 1].key == k then front + [poll[|poll| - 1]] else front
  }

  /** The readings of the connection since it appeared, if the last poll still saw it. */
  function OpenLife(polls: seq<seq<TCPFields>>, k: ConnKey): seq<TCPFields> {
    if polls == [] then []
    else
      var now := ReadingsOf(polls[|polls| - 1], k);
      if now == [] then [] else OpenLife(polls[..|polls| - 1], k) + now
  }

  /** The lives that ended because a poll no longer saw the connection. */
  function FinishedLives(polls: seq<seq<TCPFields>>, k: ConnKey): seq<seq<TCPFields>> {
    if polls == [] then []
    else
      var before := polls[..|polls| - 1];
      var open := OpenLife(before, k);
      FinishedLives(before, k)
      + if ReadingsOf(polls[|polls| - 1], k) == [] && open != [] then [open] else []
  }

  /** Sum of the increments between consecutive readings, a smaller reading counting as a restarted counter. */
  function Increments(life: seq<TCPFields>, d: Direction): nat {
    if |life| <= 1 then 0
    else Increments(life[..|life| - 1], d)
         + DiffCumulative(Reading(life[|life| - 2], d), Reading(life[|life| - 1], d))
  }

  function FinalReading(life: seq<TCPFields>, d: Direction): uint64
    requires life != []
  {
    Reading(life[|life| - 1], d)
  }

  /** What the tracker reports over a finished life. */
  function LifeBytes(life: seq<TCPFields>, d: Direction): nat {
    if life == [] then 0
    else Increments(life, d) + RemainingBytes(Increments(life, d) % U64, FinalReading(life, d))
  }

  function SumLifeBytes(lives: seq<seq<TCPFields>>, d: Direction): nat {
    if lives == [] then 0
    else SumLifeBytes(lives[..|lives| - 1], d) + LifeBytes(lives[|lives| - 1], d)
  }

  // ----- The tracker against the lives -----

  /** The record of an open life holds its last reading and, modulo 2^64, what was reported so far. */
  ghost predicate Tracks(st: Option<ConnState>, life: seq<TCPFields>) {
    && (st.Some? <==> life != [])
    && (st.Some? ==>
          && st.value.fields == life[|life| - 1]
          && forall d: Direction ::
               st.value.Last(d) == FinalReading(life, d) && st.value.Emitted(d) == Increments(life, d) % U64)
  }

  lemma ObserveTracks(st: Option<ConnState>, life: seq<TCPFields>, f: TCPFields, d: Direction)
    requires Tracks(st, life)
    ensures Tracks(Some(Observed(st, f)), life + [f])
    ensures Increments(life + [f], d) == Increments(life, d) + ObservedBytes(st, f, d)
  {
    var next := life + [f];
    assert next[..|next| - 1] == life;
    forall e: Direction
      ensures Observed(st, f).Emitted(e) == Increments(next, e) % U64
    {
      if life != [] {
        assert next[|next| - 2] == life[|life| - 1];
        AddModulo(Increments(life, e), DiffCumulative(FinalReading(life, e), Reading(f, e)));
      }
    }
  }

  lemma AddModulo(a: nat, b: uint64)
    ensures (a % U64 + b) % U64 == (a + b) % U64
  {
    var q := a / U64;
    assert a + b == q * U64 + (a % U64 + b);
  }

  lemma {:induction false} ObservationsTrack(st: Option<ConnState>, life: seq<TCPFields>, obs: seq<TCPFields>,
                                             k: ConnKey, d: Direction)
    requires Tracks(st, life)
    ensures Tracks(AfterObservations(st, obs, k), life + ReadingsOf(obs, k))
    ensures Increments(life + ReadingsOf(obs, k), d) == Increments(life, d) + ObservationBytes(st, obs, k, d)
  {
    if obs == [] {
      assert life + [] == life;
    } else {
      var front := obs[..|obs| - 1];
      var f := obs[|obs| - 1];
      ObservationsTrack(st, life, front, k, d);
      if f.key == k {
        ObserveTracks(AfterObservations(st, front, k), life + ReadingsOf(front, k), f, d);
        assert life + ReadingsOf(obs, k) == life + ReadingsOf(front, k) + [f];
      }
    }
  }

  lemma {:induction false} SeenIffRead(st: Option<ConnState>, obs: seq<TCPFields>, k: ConnKey)
    ensures ReadingsOf(obs, k) == [] ==> AfterObservations(st, obs, k) == st
    ensures ReadingsOf(obs, k) != [] ==> Kept(AfterObservations(st, obs, k)) == AfterObservations(st, obs, k)
                                         && AfterObservations(st, obs, k).Some?
  {
    if obs != [] {
      SeenIffRead(st, obs[..|obs| - 1], k);
    }
  }

  /** After a poll the connection is tracked exactly if that poll saw it. */
  lemma TrackedIffSeen(st: Option<ConnState>, poll: seq<TCPFields>, k: ConnKey)
    ensures AfterPoll(st, poll, k).Some? <==> ReadingsOf(poll, k) != []
  {
    SeenIffRead(Unseen(st), poll, k);
  }

  /** Over any run, the bytes reported for a connection are those of its finished lives plus the increments
      of its open life. */
  lemma {:induction false} RunReportsLives(polls: seq<seq<TCPFields>>, k: ConnKey, d: Direction)
    ensures Tracks(AfterRun(polls, k), OpenLife(polls, k))
    ensures RunBytes(polls, k, d) == SumLifeBytes(FinishedLives(polls, k), d) + Increments(OpenLife(polls, k), d)
  {
    if polls != [] {
      var before := polls[..|polls| - 1];
      var poll := polls[|polls| - 1];
      RunReportsLives(before, k, d);
      PollReportsLives(AfterRun(before, k), OpenLife(before, k), poll, k, d);
      var ended := ReadingsOf(poll, k) == [] && OpenLife(before, k) != [];
      if ended {
        var lives := FinishedLives(polls, k);
        assert lives[..|lives| - 1] == FinishedLives(before, k);
      } else {
        assert FinishedLives(polls, k) == FinishedLives(before, k);
      }
    }
  }

  /** A record that a poll did not see holds the last reading of the life it ends. */
  lemma UnseenIsLastReading(polls: seq<seq<TCPFields>>, poll: seq<TCPFields>, k: ConnKey)
    requires var st := AfterObservations(Unseen(AfterRun(polls, k)), poll, k); st.Some? && !st.value.seen
    ensures var life := OpenLife(polls, k); var st := AfterObservations(Unseen(AfterRun(polls, k)), poll, k);
      life != [] && st.value.fields == life[|life| - 1]
  {
    SeenIffRead(Unseen(AfterRun(polls, k)), poll, k);
    RunReportsLives(polls, k, Sent);
  }

  lemma PollReportsLives(st: Option<ConnState>, life: seq<TCPFields>, poll: seq<TCPFields>, k: ConnKey, d: Direction)
    requires Tracks(st, life)
    ensures ReadingsOf(poll, k) != [] ==>
              && Tracks(AfterPoll(st, poll, k), life + ReadingsOf(poll, k))
              && Increments(life, d) + PollBytes(st, poll, k, d) == Increments(life + ReadingsOf(poll, k), d)
    ensures ReadingsOf(poll, k) == [] ==>
              AfterPoll(st, poll, k) == None && Increments(life, d) + PollBytes(st, poll, k, d) == LifeBytes(life, d)
  {
    assert Tracks(Unseen(st), life);
    ObservationsTrack(Unseen(st), life, poll, k, d);
    SeenIffRead(Unseen(st), poll, k);
    if ReadingsOf(poll, k) == [] {
      assert life + [] == life;
    }
  }

  // ----- Lives whose counter never decreases -----

  ghost predicate NonDecreasing(life: seq<TCPFields>, d: Direction) {
    forall i :: 0 < i < |life| ==> Reading(life[i - 1], d) <= Reading(life[i], d)
  }

  lemma {:induction false} IncrementsTelescope(life: seq<TCPFields>, d: Direction)
    requires life != [] && NonDecreasing(life, d)
    ensures Increments(life, d) == FinalReading(life, d) - Reading(life[0], d)
  {
    if |life| > 1 {
      IncrementsTelescope(life[..|life| - 1], d);
    }
  }

  /** A finished life is reported in full: its bytes sum to its last cumulative reading. */
  lemma FinishedLifeIsExact(life: seq<TCPFields>, d: Direction)
    requires life != [] && NonDecreasing(life, d)
    ensures LifeBytes(life, d) == FinalReading(life, d)
  {
    IncrementsTelescope(life, d);
  }

  function SumFinalReadings(lives: seq<seq<TCPFields>>, d: Direction): nat
    requires forall i :: 0 <= i < |lives| ==> lives[i] != []
  {
    if lives == [] then 0
    else SumFinalReadings(lives[..|lives| - 1], d) + FinalReading(lives[|lives| - 1], d)
  }

  lemma {:induction false} FinishedLivesAreNonEmpty(polls: seq<seq<TCPFields>>, k: ConnKey)
    ensures forall i :: 0 <= i < |FinishedLives(polls, k)| ==> FinishedLives(polls, k)[i] != []
  {
    if polls != [] {
      FinishedLivesAreNonEmpty(polls[..|polls| - 1], k);
    }
  }

  lemma {:induction false} SumOfExactLives(lives: seq<seq<TCPFields>>, d: Direction)
    requires forall i :: 0 <= i < |lives| ==> lives[i] != [] && NonDecreasing(lives[i], d)
    ensures SumLifeBytes(lives, d) == SumFinalReadings(lives, d)
  {
    if lives != [] {
      SumOfExactLives(lives[..|lives| - 1], d);
      FinishedLifeIsExact(lives[|lives| - 1], d);
    }
  }

  /** Over a whole run of polls in which no counter decreases within a life: finished lives are reported to the
      last byte, an open life is reported up to its first reading. */
  lemma RunIsExact(polls: seq<seq<TCPFields>>, k: ConnKey, d: Direction)
    requires forall i :: 0 <= i < |FinishedLives(polls, k)| ==> NonDecreasing(FinishedLives(polls, k)[i], d)
    requires NonDecreasing(OpenLife(polls, k), d)
    ensures forall i :: 0 <= i < |FinishedLives(polls, k)| ==> FinishedLives(polls, k)[i] != []
    ensures var open := OpenLife(polls, k);
      RunBytes(polls, k, d) == SumFinalReadings(FinishedLives(polls, k), d)
                               + if open == [] then 0 else FinalReading(open, d) - Reading(open[0], d)
  {
    FinishedLivesAreNonEmpty(polls, k);
    RunReportsLives(polls, k, d);
    SumOfExactLives(FinishedLives(polls, k), d);
    if OpenLife(polls, k) != [] {
      IncrementsTelescope(OpenLife(polls, k), d);
    }
  }

  /** The accumulated count never exceeds the last reading, so its 64-bit sum never wraps. */
  lemma EmittedNeverWraps(polls: seq<seq<TCPFields>>, k: ConnKey, d: Direction)
    requires NonDecreasing(OpenLife(polls, k), d) && AfterRun(polls, k).Some?
    ensures AfterRun(polls, k).value.Emitted(d) == Increments(OpenLife(polls, k), d)
    ensures AfterRun(polls, k).value.Emitted(d) <= AfterRun(polls, k).value.Last(d)
  {
    RunReportsLives(polls, k, d);
    IncrementsTelescope(OpenLife(polls, k), d);
  }

  // ----- Lives whose counter restarts -----

  /** The bytes that really passed: the first reading and every increment after it. */
  function TrueBytes(life: seq<TCPFields>, d: Direction): nat
    requires life != []
  {
    Reading(life[0], d) + Increments(life, d)
  }

  lemma {:induction false} RestartExceedsFinal(life: seq<TCPFields>, d: Direction)
    requires life != []
    ensures TrueBytes(life, d) >= FinalReading(life, d)
    ensures TrueBytes(life, d) == FinalReading(life, d) <==> NonDecreasing(life, d)
  {
    if |life| > 1 {
      var front := life[..|life| - 1];
      RestartExceedsFinal(front, d);
      if NonDecreasing(life, d) {
        assert NonDecreasing(front, d) && Reading(life[|life| - 2], d) <= Reading(life[|life| - 1], d);
      }
    }
  }

  lemma SmallModulo(a: nat)
    requires a < U64
    ensures a % U64 == a
  {
  }

  /** The report of a finished life is exact if and only if the counter never restarted, or it ended below the reported
      amount at the very value it was first seen with; where the 64-bit sum of the increments wrapped around, what is
      left of it must make up for the first reading instead. */
  lemma FinishedLifeExactIff(life: seq<TCPFields>, d: Direction)
    requires life != []
    ensures var sum, first, final := Increments(life, d), Reading(life[0], d), FinalReading(life, d);
      LifeBytes(life, d) == TrueBytes(life, d) <==>
        || NonDecreasing(life, d)
        || (sum < U64 && final < sum && final == first)
        || (sum >= U64 && if final < sum % U64 then final == first else final == first + sum % U64)
  {
    RestartExceedsFinal(life, d);
    if Increments(life, d) < U64 {
      SmallModulo(Increments(life, d));
    } else if NonDecreasing(life, d) {
      IncrementsTelescope(life, d);
    }
  }

  /** A connection whose counter restarts once, from 5 to 3, is reported with 3 bytes although 8 have passed. */
  lemma RestartLosesBytes(k: ConnKey, d: Direction)
    ensures var life := [TCPFields(k, 1, 5, 5), TCPFields(k, 2, 3, 3)];
      LifeBytes(life, d) == 3 && TrueBytes(life, d) == 8
  {
    var life := [TCPFields(k, 1, 5, 5), TCPFields(k, 2, 3, 3)];
    assert life[..1] == [life[0]];
    assert Increments(life[..1], d) == 0 && Increments(life, d) == 3;
    SmallModulo(3);
  }

  // ----- The tracker object -----

  function Get(m: map<ConnKey, ConnState>, k: ConnKey): Option<ConnState> {
    if k in m then Some(m[k]) else None
  }

  /** The fields are those of a record that was not seen. */
  ghost predicate IsUnseen(m: map<ConnKey, ConnState>, fields: TCPFields) {
    fields.key in m && m[fields.key].fields == fields && !m[fields.key].seen
  }

  /** Bytes reported for one connection. */
  function BytesFor(out: seq<ByteDelta>, k: ConnKey, d: Direction): nat {
    if out == [] then 0
    else BytesFor(out[..|out| - 1], k, d)
         + if out[|out| - 1].fields.key == k then out[|out| - 1].Bytes(d) else 0
  }

  lemma {:induction false} BytesForJoin(a: seq<ByteDelta>, b: seq<ByteDelta>, k: ConnKey, d: Direction)
    ensures BytesFor(a + b, k, d) == BytesFor(a, k, d) + BytesFor(b, k, d)
  {
    if b == [] {
      assert a + b == a;
    } else {
      assert (a + b)[..|a + b| - 1] == a + b[..|b| - 1];
      BytesForJoin(a, b[..|b| - 1], k, d);
    }
  }

  /** An increment carries a reading of the poll or, if the poll ended a life, the last one of that. */
  ghost predicate CarriesReading(delta: ByteDelta, before: seq<seq<TCPFields>>, poll: seq<TCPFields>) {
    var life := OpenLife(before, delta.fields.key);
    delta.fields in poll || (life != [] && delta.fields == life[|life| - 1])
  }

  class ByteDeltaTracker {
    var last: map<ConnKey, ConnState>
    ghost var polls: seq<seq<TCPFields>>   // every poll completed so far
    ghost var reported: seq<ByteDelta>     // every increment handed out so far

    ghost predicate KeysMatch()
      reads this
    {
      forall k :: k in last ==> last[k].fields.key == k
    }

    /** The records and the bytes reported are those of the run so far, for every connection. */
    ghost predicate Valid()
      reads this
    {
      && KeysMatch()
      && (forall k :: Get(last, k) == AfterRun(polls, k))
      && (forall k, d :: BytesFor(reported, k, d) == RunBytes(polls, k, d))
    }

    constructor ()
      ensures Valid() && polls == [] && reported == []
    {
      last, polls, reported := map[], [], [];
    }

    method BeginPoll()
      requires KeysMatch()
      modifies this`last
      ensures KeysMatch() && forall k :: Get(last, k) == Unseen(Get(old(last), k))
    {
      var rest := last.Keys;
      while rest != {}
        invariant rest <= last.Keys == old(last).Keys
        invariant forall k :: k in last ==> last[k] == if k in rest then old(last)[k] else old(last)[k].(seen := false)
      {
        var key :| key in rest;
        last := last[key := last[key].(seen := false)];
        rest := rest - {key};
      }
    }

    method Observe(fields: TCPFields) returns (delta: Option<ByteDelta>)
      requires KeysMatch()
      modifies this`last
      ensures KeysMatch()
      ensures forall k :: Get(last, k) == if k == fields.key then Some(Observed(Get(old(last), k), fields))
                                         else Get(old(last), k)
      ensures delta.Some? ==> delta.value.fields == fields && (delta.value.sent > 0 || delta.value.received > 0)
      ensures forall d: Direction :: ObservedBytes(Get(old(last), fields.key), fields, d)
                                     == if delta.Some? then delta.value.Bytes(d) else 0
    {
      var key := fields.key;
      if key !in last {
        last := last[key := ConnState(fields, fields.bytesSent, fields.bytesReceived, 0, 0, true)];
        return None;
      }
      var st := last[key].(seen := true, fields := fields);
      var deltaSent := DiffCumulative(st.lastSent, fields.bytesSent);
      var deltaReceived := DiffCumulative(st.lastReceived, fields.bytesReceived);
      st := st.(lastSent := fields.bytesSent, lastReceived := fields.bytesReceived);
      if deltaSent == 0 && deltaReceived == 0 {
        last := last[key := st];
        return None;
      }
      last := last[key := st.(emittedSent := Add64(st.emittedSent, deltaSent),
                              emittedReceived := Add64(st.emittedReceived, deltaReceived))];
      return Some(ByteDelta(fields, deltaSent, deltaReceived));
    }

    /** The records are visited in an arbitrary order; what is reported per connection does not depend on it. */
    method EndPoll() returns (out: seq<ByteDelta>)
      requires KeysMatch()
      modifies this`last
      ensures KeysMatch() && forall k :: Get(last, k) == Kept(Get(old(last), k))
      ensures forall k, d :: BytesFor(out, k, d) == FlushedBytes(Get(old(last), k), d)
      ensures forall i :: 0 <= i < |out| ==> out[i].sent > 0 || out[i].received > 0
      ensures forall i :: 0 <= i < |out| ==> IsUnseen(old(last), out[i].fields)
    {
      out := [];
      var rest := last.Keys;
      while rest != {}
        invariant rest <= last.Keys <= old(last).Keys
        invariant forall k :: k in old(last) ==> (k in last <==> k in rest || old(last)[k].seen)
        invariant forall k :: k in last ==> last[k] == old(last)[k]
        invariant forall k, d :: BytesFor(out, k, d) == if k in rest then 0 else FlushedBytes(Get(old(last), k), d)
        invariant forall i :: 0 <= i < |out| ==> out[i].sent > 0 || out[i].received > 0
        invariant forall i :: 0 <= i < |out| ==> IsUnseen(old(last), out[i].fields)
      {
        var key :| key in rest;
        rest := rest - {key};
        var st := last[key];
        if st.seen {
          continue;
        }
        var remainingSent := RemainingBytes(st.emittedSent, st.lastSent);
        var remainingReceived := RemainingBytes(st.emittedReceived, st.lastReceived);
        last := last - {key};
        if remainingSent > 0 || remainingReceived > 0 {
          var delta := ByteDelta(st.fields, remainingSent, remainingReceived);
          forall k, d {
            BytesForJoin(out, [delta], k, d);
          }
          out := out + [delta];
        }
      }
    }

    /** One callback of the polling gadget: BeginPoll, Observe for every row, EndPoll. */
    method Poll(data: seq<TCPFields>) returns (out: seq<ByteDelta>)
      requires Valid()
      modifies this
      ensures Valid() && polls == old(polls) + [data] && reported == old(reported) + out
      ensures forall k :: k in last <==> ReadingsOf(data, k) != []
      ensures forall i :: 0 <= i < |out| ==> out[i].sent > 0 || out[i].received > 0
      ensures forall i :: 0 <= i < |out| ==> CarriesReading(out[i], old(polls), data)
    {
      BeginPoll();
      ghost var begun := last;
      out := [];
      var i := 0;
      while i < |data|
        invariant 0 <= i <= |data| && KeysMatch() && polls == old(polls) && reported == old(reported)
        invariant forall k :: Get(last, k) == AfterObservations(Get(begun, k), data[..i], k)
        invariant forall k, d :: BytesFor(out, k, d) == ObservationBytes(Get(begun, k), data[..i], k, d)
        invariant forall j :: 0 <= j < |out| ==> out[j].sent > 0 || out[j].received > 0
        invariant forall j :: 0 <= j < |out| ==> out[j].fields in data
      {
        var delta := Observe(data[i]);
        assert data[..i + 1][..i] == data[..i];
        if delta.Some? {
          forall k, d {
            BytesForJoin(out, [delta.value], k, d);
          }
          out := out + [delta.value];
        }
        i := i + 1;
      }
      assert data[..|data|] == data;
      ghost var seen := last;
      var flushed := EndPoll();
      forall i | 0 <= i < |flushed| ensures CarriesReading(flushed[i], polls, data) {
        assert IsUnseen(seen, flushed[i].fields);
        UnseenIsLastReading(polls, data, flushed[i].fields.key);
      }
      ghost var before, told := polls, reported;
      polls := polls + [data];
      assert polls[..|polls| - 1] == before;
      forall k, d
        ensures BytesFor(told + (out + flushed), k, d) == RunBytes(polls, k, d)
      {
        BytesForJoin(out, flushed, k, d);
        BytesForJoin(told, out + flushed, k, d);
      }
      forall k {
        TrackedIffSeen(AfterRun(before, k), data, k);
      }
      out := out + flushed;
      reported := reported + out;
    }
  }

  // ----- Flow events -----

  datatype FlowEvent = FlowEvent(timestamp: int, endpoints: Endpoints, bytesSent: uint64, bytesReceived: uint64)
  {
    function Bytes(d: Direction): uint64 { if d.Sent? then bytesSent else bytesReceived }
  }

  /** The event for an increment, unless the pod or the destination is unknown or there is nothing to report. */
  function MapTrafficDelta(delta: ByteDelta, now: int): Option<FlowEvent> {
    var e := delta.fields.key.endpoints;
    if e.pod == "" || e.dstAddr == "" then None
    else if delta.sent == 0 && delta.received == 0 then None
    else
      var timestamp := if delta.fields.timestamp == 0 then now else delta.fields.timestamp;
      Some(FlowEvent(timestamp, e, delta.sent, delta.received))
  }

  function BytesBetween(out: seq<ByteDelta>, e: Endpoints, d: Direction): nat {
    if out == [] then 0
    else BytesBetween(out[..|out| - 1], e, d)
         + if out[|out| - 1].fields.key.endpoints == e then out[|out| - 1].Bytes(d) else 0
  }

  function EventBytes(events: seq<FlowEvent>, e: Endpoints, d: Direction): nat {
    if events == [] then 0
    else EventBytes(events[..|events| - 1], e, d)
         + if events[|events| - 1].endpoints == e then events[|events| - 1].Bytes(d) else 0
  }

  /** The events of the first `n` increments, in their order. */
  function EventsTo(deltas: seq<ByteDelta>, n: nat, now: int): seq<FlowEvent>
    requires n <= |deltas|
  {
    if n == 0 then []
    else
      match MapTrafficDelta(deltas[n - 1], now)
      case None => EventsTo(deltas, n - 1, now)
      case Some(event) => EventsTo(deltas, n - 1, now) + [event]
  }

  lemma OneMoreEvent(events: seq<FlowEvent>, event: FlowEvent, e: Endpoints, d: Direction)
    ensures EventBytes(events + [event], e, d)
            == EventBytes(events, e, d) + if event.endpoints == e then event.Bytes(d) else 0
  {
    assert (events + [event])[..|events|] == events;
  }

  lemma OneMoreDelta(deltas: seq<ByteDelta>, n: nat, e: Endpoints, d: Direction)
    requires n < |deltas|
    ensures BytesBetween(deltas[..n + 1], e, d)
            == BytesBetween(deltas[..n], e, d) + if deltas[n].fields.key.endpoints == e then deltas[n].Bytes(d) else 0
  {
    assert deltas[..n + 1][..n] == deltas[..n];
  }

  /** One increment and its event, if it has one, carry the same bytes. */
  lemma EventCarriesBytes(delta: ByteDelta, now: int, d: Direction)
    ensures var e := delta.fields.key.endpoints; var event := MapTrafficDelta(delta, now);
      && (event.Some? ==>
            && e.pod != "" && e.dstAddr != ""
            && event.value.endpoints == e && event.value.Bytes(d) == delta.Bytes(d))
      && (event.None? ==> e.pod == "" || e.dstAddr == "" || delta.Bytes(d) == 0)
  {
  }

  /** The events enqueued for a poll carry exactly the reported bytes of every connection whose pod and
      destination are known, and nothing else. */
  lemma {:induction false} EventsCarryBytes(deltas: seq<ByteDelta>, n: nat, now: int, e: Endpoints, d: Direction)
    requires n <= |deltas|
    ensures EventBytes(EventsTo(deltas, n, now), e, d)
            == if e.pod != "" && e.dstAddr != "" then BytesBetween(deltas[..n], e, d) else 0
  {
    if n > 0 {
      EventsCarryBytes(deltas, n - 1, now, e, d);
      OneMoreDelta(deltas, n - 1, e, d);
      EventCarriesBytes(deltas[n - 1], now, d);
      var event := MapTrafficDelta(deltas[n - 1], now);
      if event.Some? {
        OneMoreEvent(EventsTo(deltas, n - 1, now), event.value, e, d);
      }
    } else {
      assert deltas[..0] == [];
    }
  }

  lemma {:induction false} NoEmptyEvents(deltas: seq<ByteDelta>, n: nat, now: int)
    requires n <= |deltas|
    ensures forall event :: event in EventsTo(deltas, n, now) ==> event.bytesSent > 0 || event.bytesReceived > 0
  {
    if n > 0 {
      NoEmptyEvents(deltas, n - 1, now);
    }
  }

  /** `event` tells of the increment `delta`, at the time the gadget gave or else at the clock reading `now`. */
  ghost predicate Tells(event: FlowEvent, delta: ByteDelta, now: int) {
    && event.endpoints == delta.fields.key.endpoints
    && event.bytesSent == delta.sent && event.bytesReceived == delta.received
    && event.timestamp == if delta.fields.timestamp == 0 then now else delta.fields.timestamp
  }

  /** Its pod and its destination are known, and there are bytes to report. */
  ghost predicate Reportable(delta: ByteDelta) {
    && delta.fields.key.endpoints.pod != "" && delta.fields.key.endpoints.dstAddr != ""
    && (delta.sent > 0 || delta.received > 0)
  }

  /** The events tell of the reportable ones of the first `n` increments, in their order: `at` are the positions. */
  ghost predicate TellsInOrder(events: seq<FlowEvent>, deltas: seq<ByteDelta>, n: nat, now: int, at: seq<nat>) {
    && |at| == |events|
    && (forall i :: 0 <= i < |at| ==> at[i] < n <= |deltas| && Tells(events[i], deltas[at[i]], now))
    && (forall i, j :: 0 <= i < j < |at| ==> at[i] < at[j])
    && (forall p :: 0 <= p < n <= |deltas| ==> (p in at <==> Reportable(deltas[p])))
  }

  lemma TellOneMore(events: seq<FlowEvent>, deltas: seq<ByteDelta>, n: nat, now: int, at: seq<nat>)
    requires n < |deltas| && TellsInOrder(events, deltas, n, now, at)
    ensures match MapTrafficDelta(deltas[n], now)
            case None => TellsInOrder(events, deltas, n + 1, now, at)
            case Some(event) => TellsInOrder(events + [event], deltas, n + 1, now, at + [n])
  {
    assert n !in at;
    assert forall p :: p in at + [n] <==> p in at || p == n;
  }

  /** The loop that enqueues the events of a poll. */
  method EventsOf(deltas: seq<ByteDelta>, now: int) returns (events: seq<FlowEvent>, ghost at: seq<nat>)
    ensures events == EventsTo(deltas, |deltas|, now)
    ensures TellsInOrder(events, deltas, |deltas|, now, at)
    ensures forall e, d :: EventBytes(events, e, d) ==
                           if e.pod != "" && e.dstAddr != "" then BytesBetween(deltas, e, d) else 0
    ensures forall event :: event in events ==> event.bytesSent > 0 || event.bytesReceived > 0
  {
    events, at := [], [];
    for i := 0 to |deltas|
      invariant events == EventsTo(deltas, i, now)
      invariant TellsInOrder(events, deltas, i, now, at)
    {
      TellOneMore(events, deltas, i, now, at);
      var event := MapTrafficDelta(deltas[i], now);
      if event.Some? {
        events, at := events + [event.value], at + [i];
      }
    }
    assert deltas[..|deltas|] == deltas;
    forall e, d {
      EventsCarryBytes(deltas, |deltas|, now, e, d);
    }
    NoEmptyEvents(deltas, |deltas|, now);
  }

  /** The tracker's whole output, for a connection whose counters never decrease within a life. */
  lemma TrackerIsExact(t: ByteDeltaTracker, k: ConnKey, d: Direction)
    requires t.Valid()
    requires forall i :: 0 <= i < |FinishedLives(t.polls, k)| ==> NonDecreasing(FinishedLives(t.polls, k)[i], d)
    requires NonDecreasing(OpenLife(t.polls, k), d)
    ensures forall i :: 0 <= i < |FinishedLives(t.polls, k)| ==> FinishedLives(t.polls, k)[i] != []
    ensures var open := OpenLife(t.polls, k);
      BytesFor(t.reported, k, d) == SumFinalReadings(FinishedLives(t.polls, k), d)
                                    + if open == [] then 0 else FinalReading(open, d) - Reading(open[0], d)
  {
    RunIsExact(t.polls, k, d);
  }
}
