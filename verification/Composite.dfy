/** Image trust: how the verdicts of keys, attestation types and verification modes are merged. */
module Composite {

  datatype Status = Verified | SignedUntrusted | Unsigned | VerificationError | Unknown | Other(name: string)

  datatype Signer = Signer(issuer: string, subject: string, keyRef: string)

  const NO_SIGNER: Signer := Signer("", "", "")

  datatype Observation = Observation(mode: string, verifiedBy: string, status: Status, reason: string,
                                     attestationType: string, signer: Signer, signers: seq<Signer>)

  /** A hard error; a composite verifier puts the name of the failing verifier in front. */
  datatype Error = Cause(message: string) | By(name: string, error: Error)

  datatype Verdict = Observed(observation: Observation) | Failed(error: Error)

  /** What a verifier with some name answers. */
  datatype Answer = Answer(name: string, verdict: Verdict)

  function Fill(o: Observation): Observation {
    if o.verifiedBy == "" then o.(verifiedBy := o.mode) else o
  }

  // ----- Merging unverified observations -----

  /** Position of a status in the priority list; statuses outside the list come last. */
  function Rank(s: Status): nat {
    match s
    case SignedUntrusted => 0
    case Unsigned => 1
    case VerificationError => 2
    case Unknown => 3
    case _ => 4
  }

  const PRIORITY: seq<Status> := [SignedUntrusted, Unsigned, VerificationError, Unknown]

  const NOTHING_TO_MERGE: Observation :=
    Observation("", "", VerificationError, "no verification modes produced a result", "", NO_SIGNER, [])

  /** The first observation of the best rank. */
  function Best(attempts: seq<Observation>): (o: Observation)
    requires attempts != []
    ensures o in attempts
  {
    var last := attempts[|attempts| - 1];
    if |attempts| == 1 then last
    else
      var front := Best(attempts[..|attempts| - 1]);
      if Rank(last.status) < Rank(front.status) then last else front
  }

  function Merged(attempts: seq<Observation>): Observation {
    if attempts == [] then NOTHING_TO_MERGE else Fill(Best(attempts))
  }

  lemma {:induction false} BestIsFirstOfRank(attempts: seq<Observation>, i: nat)
    requires i < |attempts|
    requires forall j :: 0 <= j < |attempts| ==> Rank(attempts[j].status) >= Rank(attempts[i].status)
    requires forall j :: 0 <= j < i ==> Rank(attempts[j].status) > Rank(attempts[i].status)
    ensures Best(attempts) == attempts[i]
  {
    var n := |attempts| - 1;
    var front := attempts[..n];
    if n > 0 {
      if i < n {
        BestIsFirstOfRank(front, i);
      } else {
        var o := Best(front);
        assert o in front;
      }
    }
  }

  ghost predicate Occurs(attempts: seq<Observation>, status: Status) {
    exists i :: 0 <= i < |attempts| && attempts[i].status == status
  }

  ghost predicate FirstAt(attempts: seq<Observation>, i: nat, status: Status) {
    && i < |attempts| && attempts[i].status == status
    && forall j :: 0 <= j < i ==> attempts[j].status != status
  }

  /** Which attempt is reported: the first that found signatures nobody trusts; without any, the first that found none;
      then the first error, the first unknown, and else the first of all. */
  ghost predicate ReportedAt(attempts: seq<Observation>, i: nat) {
    if Occurs(attempts, SignedUntrusted) then FirstAt(attempts, i, SignedUntrusted)
    else if Occurs(attempts, Unsigned) then FirstAt(attempts, i, Unsigned)
    else if Occurs(attempts, VerificationError) then FirstAt(attempts, i, VerificationError)
    else if Occurs(attempts, Unknown) then FirstAt(attempts, i, Unknown)
    else i == 0
  }

  /** `r` is `o`, verified by its mode if it does not say by what. */
  ghost predicate FilledIn(r: Observation, o: Observation) {
    r == o.(verifiedBy := if o.verifiedBy == "" then o.mode else o.verifiedBy)
  }

  lemma {:induction false} BestAt(attempts: seq<Observation>) returns (i: nat)
    requires attempts != []
    ensures i < |attempts| && Best(attempts) == attempts[i]
    ensures forall j :: 0 <= j < |attempts| ==> Rank(attempts[j].status) >= Rank(attempts[i].status)
    ensures forall j :: 0 <= j < i ==> Rank(attempts[j].status) > Rank(attempts[i].status)
  {
    var n := |attempts| - 1;
    i := n;
    if n > 0 {
      var k := BestAt(attempts[..n]);
      if Rank(attempts[n].status) >= Rank(attempts[k].status) {
        i := k;
      }
    }
  }

  /** The merge is the attempt that the priorities select. */
  lemma MergedIsReported(attempts: seq<Observation>) returns (i: nat)
    requires attempts != []
    ensures i < |attempts| && ReportedAt(attempts, i) && FilledIn(Merged(attempts), attempts[i])
  {
    i := BestAt(attempts);
    var best := attempts[i].status;
    assert forall j :: 0 <= j < |attempts| ==> Rank(attempts[j].status) >= Rank(best);
    if best.Other? || best.Verified? {
      assert i > 0 ==> Rank(attempts[0].status) > 4;
    } else {
      assert Occurs(attempts, best) && FirstAt(attempts, i, best);
    }
  }

  method MergeObservations(attempts: seq<Observation>) returns (r: Observation)
    ensures r == Merged(attempts)
    ensures attempts == [] ==>
              r.status.VerificationError? && r.reason == "no verification modes produced a result" && r.signers == []
    ensures attempts != [] ==> exists i :: 0 <= i < |attempts| && ReportedAt(attempts, i) && FilledIn(r, attempts[i])
  {
    if |attempts| > 0 {
      var reported := MergedIsReported(attempts);
    }
    if |attempts| == 0 {
      return NOTHING_TO_MERGE;
    }
    for p := 0 to |PRIORITY|
      invariant forall j :: 0 <= j < |attempts| ==> Rank(attempts[j].status) >= p
    {
      for i := 0 to |attempts|
        invariant forall j :: 0 <= j < i ==> Rank(attempts[j].status) > p
      {
        if attempts[i].status == PRIORITY[p] {
          BestIsFirstOfRank(attempts, i);
          return Fill(attempts[i]);
        }
      }
    }
    BestIsFirstOfRank(attempts, 0);
    return Fill(attempts[0]);
  }

  // ----- Verifiers that try keys, or keys by attestation types -----

  /** The verdict over a list of tries: the first hard error or verified observation, else the merge. */
  function Tried(name: string, tries: seq<Verdict>, sofar: seq<Observation>): Verdict {
    if tries == [] then Observed(Merged(sofar).(mode := name))
    else if tries[0].Failed? || tries[0].observation.status.Verified? then tries[0]
    else Tried(name, tries[1..], sofar + [tries[0].observation])
  }

  /** A verdict that ends the tries: a hard error or a verified observation. */
  predicate Ends(v: Verdict) {
    v.Failed? || v.observation.status.Verified?
  }

  ghost predicate FirstEnd(vs: seq<Verdict>, i: nat) {
    i < |vs| && Ends(vs[i]) && forall j :: 0 <= j < i ==> !Ends(vs[j])
  }

  ghost predicate NoneEnds(vs: seq<Verdict>) {
    forall i :: 0 <= i < |vs| ==> !Ends(vs[i])
  }

  ghost function ObservationsOf(vs: seq<Verdict>): (r: seq<Observation>)
    requires forall i :: 0 <= i < |vs| ==> vs[i].Observed?
    ensures |r| == |vs| && forall i :: 0 <= i < |vs| ==> r[i] == vs[i].observation
  {
    seq(|vs|, i requires 0 <= i < |vs| => vs[i].observation)
  }

  /** What the tries of one verifier come to: the first one that ends them, as it is, or the attempt that the priorities
      select, under the verifier's name. */
  ghost predicate TriesComeTo(name: string, tries: seq<Verdict>, r: Verdict) {
    && (forall i: nat :: FirstEnd(tries, i) ==> r == tries[i])
    && (NoneEnds(tries) ==>
          && r.Observed? && r.observation.mode == name
          && (tries == [] ==> r.observation.status.VerificationError?)
          && (tries != [] ==>
                var obs := ObservationsOf(tries);
                exists i :: 0 <= i < |obs| && ReportedAt(obs, i)
                            && FilledIn(r.observation.(mode := obs[i].mode), obs[i])))
  }

  lemma {:induction false} FirstEndDecides(name: string, tries: seq<Verdict>, sofar: seq<Observation>, i: nat)
    requires FirstEnd(tries, i)
    ensures Tried(name, tries, sofar) == tries[i]
  {
    if i > 0 {
      assert !Ends(tries[0]);
      FirstEndDecides(name, tries[1..], sofar + [tries[0].observation], i - 1);
    }
  }

  lemma {:induction false} NoEndMerges(name: string, tries: seq<Verdict>, sofar: seq<Observation>)
    requires NoneEnds(tries)
    ensures Tried(name, tries, sofar) == Observed(Merged(sofar + ObservationsOf(tries)).(mode := name))
  {
    if tries == [] {
      assert sofar + ObservationsOf(tries) == sofar;
    } else {
      assert !Ends(tries[0]);
      var o := tries[0].observation;
      NoEndMerges(name, tries[1..], sofar + [o]);
      assert ObservationsOf(tries) == [o] + ObservationsOf(tries[1..]);
      JoinOne(sofar, o, ObservationsOf(tries[1..]));
    }
  }

  lemma JoinOne<T>(front: seq<T>, x: T, rest: seq<T>)
    ensures front + [x] + rest == front + ([x] + rest)
  {
  }

  lemma TriedIsRight(name: string, tries: seq<Verdict>)
    ensures TriesComeTo(name, tries, Tried(name, tries, []))
  {
    forall i: nat | FirstEnd(tries, i) ensures Tried(name, tries, []) == tries[i] {
      FirstEndDecides(name, tries, [], i);
    }
    if NoneEnds(tries) {
      NoEndMerges(name, tries, []);
      assert [] + ObservationsOf(tries) == ObservationsOf(tries);
      if tries != [] {
        var i := MergedIsReported(ObservationsOf(tries));
      }
    }
  }

  /** `tries[i]` is what the try with the i-th key answers, if it is made. */
  method VerifyKeys(name: string, tries: seq<Verdict>) returns (r: Verdict)
    ensures r == Tried(name, tries, []) && TriesComeTo(name, tries, r)
  {
    TriedIsRight(name, tries);
    var attempts: seq<Observation> := [];
    for i := 0 to |tries|
      invariant Tried(name, tries[i..], attempts) == Tried(name, tries, [])
    {
      assert tries[i..][0] == tries[i] && tries[i..][1..] == tries[i + 1..];
      var verdict := tries[i];
      if verdict.Failed? || verdict.observation.status.Verified? {
        return verdict;
      }
      attempts := attempts + [verdict.observation];
    }
    var merged := MergeObservations(attempts);
    return Observed(merged.(mode := name));
  }

  /** The tries of the nested loops: the row of the first key, then that of the second, and so on. */
  function InOrder(rows: seq<seq<Verdict>>): seq<Verdict> {
    if rows == [] then [] else rows[0] + InOrder(rows[1..])
  }

  function TriesBefore(rows: seq<seq<Verdict>>, i: nat): nat
    requires i <= |rows|
  {
    if i == 0 then 0 else TriesBefore(rows, i - 1) + |rows[i - 1]|
  }

  /** Every try comes after all tries with earlier keys and with its own key and earlier types. */
  lemma {:induction false} InOrderAt(rows: seq<seq<Verdict>>, i: nat, j: nat)
    requires i < |rows| && j < |rows[i]|
    ensures TriesBefore(rows, i) + j < |InOrder(rows)| && InOrder(rows)[TriesBefore(rows, i) + j] == rows[i][j]
  {
    if i > 0 {
      InOrderAt(rows[1..], i - 1, j);
      TriesBeforeRest(rows, i);
    }
  }

  lemma {:induction false} TriesBeforeRest(rows: seq<seq<Verdict>>, i: nat)
    requires 0 < i <= |rows|
    ensures TriesBefore(rows, i) == |rows[0]| + TriesBefore(rows[1..], i - 1)
  {
    if i > 1 {
      TriesBeforeRest(rows, i - 1);
      assert rows[1..][i - 2] == rows[i - 1];
    }
  }

  lemma {:induction false} InOrderLength(rows: seq<seq<Verdict>>)
    ensures |InOrder(rows)| == TriesBefore(rows, |rows|)
  {
    if rows != [] {
      InOrderLength(rows[1..]);
      TriesBeforeRest(rows, |rows|);
    }
  }

  /** `q` holds the entries of the rows, those of earlier rows first. */
  ghost predicate RowByRow(rows: seq<seq<Verdict>>, q: seq<Verdict>) {
    && |q| == TriesBefore(rows, |rows|)
    && forall i, j :: 0 <= i < |rows| && 0 <= j < |rows[i]| ==> IsEntry(rows, q, i, j)
  }

  ghost predicate IsEntry(rows: seq<seq<Verdict>>, q: seq<Verdict>, i: nat, j: nat)
    requires i < |rows| && j < |rows[i]|
  {
    TriesBefore(rows, i) + j < |q| && q[TriesBefore(rows, i) + j] == rows[i][j]
  }

  lemma InOrderIsRowByRow(rows: seq<seq<Verdict>>)
    ensures RowByRow(rows, InOrder(rows))
  {
    InOrderLength(rows);
    forall i, j | 0 <= i < |rows| && 0 <= j < |rows[i]| ensures IsEntry(rows, InOrder(rows), i, j) {
      InOrderAt(rows, i, j);
    }
  }

  /** `rows[i][j]` is what the try with the i-th key and the j-th attestation type answers, if it is made. */
  method VerifyKeysByTypes(name: string, rows: seq<seq<Verdict>>) returns (r: Verdict)
    ensures r == Tried(name, InOrder(rows), []) && TriesComeTo(name, InOrder(rows), r)
    ensures RowByRow(rows, InOrder(rows))
  {
    TriedIsRight(name, InOrder(rows));
    InOrderIsRowByRow(rows);
    ghost var goal := Tried(name, InOrder(rows), []);
    var attempts: seq<Observation> := [];
    assert rows[0..] == rows;
    for i := 0 to |rows|
      invariant Tried(name, InOrder(rows[i..]), attempts) == goal
    {
      ghost var row, later := rows[i], InOrder(rows[i + 1..]);
      assert rows[i..][1..] == rows[i + 1..];
      assert InOrder(rows[i..]) == row + later;
      assert row[0..] == row;
      for j := 0 to |rows[i]|
        invariant Tried(name, row[j..] + later, attempts) == goal
      {
        assert (row[j..] + later)[0] == row[j] && (row[j..] + later)[1..] == row[j + 1..] + later;
        var verdict := rows[i][j];
        if verdict.Failed? || verdict.observation.status.Verified? {
          return verdict;
        }
        attempts := attempts + [verdict.observation];
      }
      assert row[|row|..] + later == later;
    }
    assert InOrder(rows[|rows|..]) == [];
    var merged := MergeObservations(attempts);
    return Observed(merged.(mode := name));
  }

  // ----- Policy any -----

  function Concluded(attempts: seq<Observation>): Observation {
    var merged := Merged(attempts);
    if merged.verifiedBy == "" && merged.mode == "" && |attempts| > 0 then merged.(mode := attempts[0].mode) else merged
  }

  function AnyOf(answers: seq<Answer>, sofar: seq<Observation>): Verdict {
    if answers == [] then Observed(Concluded(sofar))
    else
      match answers[0].verdict
      case Failed(e) => Failed(By(answers[0].name, e))
      case Observed(o) =>
        if o.status.Verified? then Observed(Fill(o)) else AnyOf(answers[1..], sofar + [o])
  }

  ghost function Verdicts(answers: seq<Answer>): (r: seq<Verdict>)
    ensures |r| == |answers| && forall i :: 0 <= i < |r| ==> r[i] == answers[i].verdict
  {
    seq(|answers|, i requires 0 <= i < |answers| => answers[i].verdict)
  }

  /** `r` is the reported attempt `o`; an observation without any mode gets that of the first attempt. */
  ghost predicate ConcludedFrom(r: Observation, o: Observation, first: Observation) {
    if o.verifiedBy == "" && o.mode == "" then r == o.(mode := first.mode) else FilledIn(r, o)
  }

  lemma ConcludedIsReported(obs: seq<Observation>) returns (i: nat)
    requires obs != []
    ensures i < |obs| && ReportedAt(obs, i) && ConcludedFrom(Concluded(obs), obs[i], obs[0])
  {
    i := MergedIsReported(obs);
  }

  /** What policy any comes to: the first answer that is an error, under the verifier's name, or verified, or else the
      attempt that the priorities select. */
  ghost predicate AnyComesTo(answers: seq<Answer>, r: Verdict) {
    var vs := Verdicts(answers);
    && (forall i: nat :: FirstEnd(vs, i) ==> r == Ended(answers[i]))
    && (NoneEnds(vs) ==> r.Observed? && AllUnverified(ObservationsOf(vs), r.observation))
  }

  ghost function Ended(a: Answer): Verdict {
    match a.verdict
    case Failed(e) => Failed(By(a.name, e))
    case Observed(o) => Observed(o.(verifiedBy := if o.verifiedBy == "" then o.mode else o.verifiedBy))
  }

  ghost predicate AllUnverified(obs: seq<Observation>, r: Observation) {
    && (obs == [] ==> r.status.VerificationError?)
    && (obs != [] ==> exists i :: 0 <= i < |obs| && ReportedAt(obs, i) && ConcludedFrom(r, obs[i], obs[0]))
  }

  lemma {:induction false} FirstEndDecidesAny(answers: seq<Answer>, sofar: seq<Observation>, i: nat)
    requires FirstEnd(Verdicts(answers), i)
    ensures AnyOf(answers, sofar) == Ended(answers[i])
  {
    var vs := Verdicts(answers);
    if i > 0 {
      assert !Ends(vs[0]);
      assert Verdicts(answers[1..]) == vs[1..];
      FirstEndDecidesAny(answers[1..], sofar + [answers[0].verdict.observation], i - 1);
    }
  }

  lemma {:induction false} NoEndMergesAny(answers: seq<Answer>, sofar: seq<Observation>)
    requires NoneEnds(Verdicts(answers))
    ensures AnyOf(answers, sofar) == Observed(Concluded(sofar + ObservationsOf(Verdicts(answers))))
  {
    var vs := Verdicts(answers);
    if answers == [] {
      assert sofar + ObservationsOf(vs) == sofar;
    } else {
      assert !Ends(vs[0]);
      var o := vs[0].observation;
      assert Verdicts(answers[1..]) == vs[1..];
      NoEndMergesAny(answers[1..], sofar + [o]);
      assert ObservationsOf(vs) == [o] + ObservationsOf(vs[1..]);
      JoinOne(sofar, o, ObservationsOf(vs[1..]));
    }
  }

  lemma UnverifiedIsRight(obs: seq<Observation>)
    ensures AllUnverified(obs, Concluded(obs))
  {
    if obs != [] {
      var i := ConcludedIsReported(obs);
    }
  }

  lemma NoEndIsRight(answers: seq<Answer>)
    requires NoneEnds(Verdicts(answers))
    ensures AnyOf(answers, []).Observed?
    ensures AllUnverified(ObservationsOf(Verdicts(answers)), AnyOf(answers, []).observation)
  {
    var obs := ObservationsOf(Verdicts(answers));
    NoEndMergesAny(answers, []);
    assert [] + obs == obs;
    UnverifiedIsRight(obs);
  }

  lemma AnyIsRight(answers: seq<Answer>)
    ensures AnyComesTo(answers, AnyOf(answers, []))
  {
    var r := AnyOf(answers, []);
    forall i: nat | FirstEnd(Verdicts(answers), i) ensures r == Ended(answers[i]) {
      FirstEndDecidesAny(answers, [], i);
    }
    if NoneEnds(Verdicts(answers)) {
      NoEndIsRight(answers);
    }
  }

  method VerifyAny(answers: seq<Answer>) returns (r: Verdict)
    ensures r == AnyOf(answers, []) && AnyComesTo(answers, r)
  {
    AnyIsRight(answers);
    var attempts: seq<Observation> := [];
    for i := 0 to |answers|
      invariant AnyOf(answers[i..], attempts) == AnyOf(answers, [])
    {
      assert answers[i..][0] == answers[i] && answers[i..][1..] == answers[i + 1..];
      match answers[i].verdict
      case Failed(e) => return Failed(By(answers[i].name, e));
      case Observed(o) =>
        if o.status.Verified? {
          return Observed(Fill(o));
        }
        attempts := attempts + [o];
    }
    var merged := MergeObservations(attempts);
    if merged.verifiedBy == "" && merged.mode == "" && |attempts| > 0 {
      merged := merged.(mode := attempts[0].mode);
    }
    return Observed(merged);
  }

  // ----- Two levels of merging are one -----

  /** A verifier with all its tries; each observation carries the verifier's name as its mode. */
  datatype Group = Group(name: string, tries: seq<Verdict>)
  {
    ghost predicate Valid() {
      tries != [] && forall i :: 0 <= i < |tries| && tries[i].Observed? ==> tries[i].observation.mode == name
    }
  }

  function Answers(groups: seq<Group>): seq<Answer> {
    if groups == [] then []
    else [Answer(groups[0].name, Tried(groups[0].name, groups[0].tries, []))] + Answers(groups[1..])
  }

  function Tagged(name: string, tries: seq<Verdict>): seq<Answer> {
    if tries == [] then [] else [Answer(name, tries[0])] + Tagged(name, tries[1..])
  }

  /** Every try as if it were a verifier of its own. */
  function Flat(groups: seq<Group>): seq<Answer> {
    if groups == [] then [] else Tagged(groups[0].name, groups[0].tries) + Flat(groups[1..])
  }

  function Better(a: Observation, b: Observation): Observation {
    if Rank(b.status) < Rank(a.status) then b else a
  }

  lemma {:induction false} BestOfJoin(a: seq<Observation>, b: seq<Observation>)
    requires a != [] && b != []
    ensures Best(a + b) == Better(Best(a), Best(b))
  {
    var q := a + b;
    assert q[|q| - 1] == b[|b| - 1];
    if |b| == 1 {
      assert q[..|q| - 1] == a;
    } else {
      assert q[..|q| - 1] == a + b[..|b| - 1];
      BestOfJoin(a, b[..|b| - 1]);
    }
  }

  /** The observations of the tries merge like those of the verifiers. */
  ghost predicate SameMerge(flat: seq<Observation>, merged: seq<Observation>) {
    && (flat == [] <==> merged == [])
    && (flat != [] ==> Fill(Best(flat)) == Fill(Best(merged)) && flat[0].mode == merged[0].mode)
  }

  lemma BetterOfAlike(a: Observation, b: Observation, c: Observation, d: Observation)
    requires Fill(a) == Fill(b) && Fill(c) == Fill(d)
    ensures Fill(Better(a, c)) == Fill(Better(b, d))
  {
    assert a.status == Fill(a).status && c.status == Fill(c).status;
  }

  lemma GroupMerge(name: string, obs: seq<Observation>)
    requires obs != [] && forall i :: 0 <= i < |obs| ==> obs[i].mode == name
    ensures Fill(Merged(obs).(mode := name)) == Fill(Best(obs))
  {
    assert Best(obs).mode == name;
  }

  lemma MergeOneGroup(flat: seq<Observation>, merged: seq<Observation>, name: string, obs: seq<Observation>)
    requires SameMerge(flat, merged) && obs != []
    requires forall i :: 0 <= i < |obs| ==> obs[i].mode == name
    ensures SameMerge(flat + obs, merged + [Merged(obs).(mode := name)])
  {
    var m := Merged(obs).(mode := name);
    GroupMerge(name, obs);
    assert Best([m]) == m;
    if flat == [] {
      assert flat + obs == obs && merged + [m] == [m];
    } else {
      BestOfJoin(flat, obs);
      BestOfJoin(merged, [m]);
      BetterOfAlike(Best(flat), Best(merged), Best(obs), m);
    }
  }

  lemma SameConclusion(flat: seq<Observation>, merged: seq<Observation>)
    requires SameMerge(flat, merged)
    ensures Concluded(flat) == Concluded(merged)
  {
  }

  ghost predicate Unverified(obs: seq<Observation>, name: string) {
    forall i :: 0 <= i < |obs| ==> obs[i].mode == name && !obs[i].status.Verified?
  }

  /** In the middle of the first verifier, with `obs` already observed by it. */
  lemma {:induction false} LevelsAgree(name: string, tries: seq<Verdict>, obs: seq<Observation>, groups: seq<Group>,
                                       flat: seq<Observation>, merged: seq<Observation>)
    requires SameMerge(flat, merged) && (obs != [] || tries != []) && Unverified(obs, name)
    requires forall i :: 0 <= i < |tries| && tries[i].Observed? ==> tries[i].observation.mode == name
    requires forall i :: 0 <= i < |groups| ==> groups[i].Valid()
    ensures AnyOf([Answer(name, Tried(name, tries, obs))] + Answers(groups), merged)
         == AnyOf(Tagged(name, tries) + Flat(groups), flat + obs)
    decreases |groups|, |tries|
  {
    var answers := [Answer(name, Tried(name, tries, obs))] + Answers(groups);
    var singles := Tagged(name, tries) + Flat(groups);
    assert answers[1..] == Answers(groups);
    if tries != [] {
      assert singles[0] == Answer(name, tries[0]) && singles[1..] == Tagged(name, tries[1..]) + Flat(groups);
      if tries[0].Observed? && !tries[0].observation.status.Verified? {
        var o := tries[0].observation;
        assert flat + (obs + [o]) == flat + obs + [o];
        LevelsAgree(name, tries[1..], obs + [o], groups, flat, merged);
      }
    } else {
      assert singles == Flat(groups);
      var m := Merged(obs).(mode := name);
      assert !m.status.Verified?;
      MergeOneGroup(flat, merged, name, obs);
      assert AnyOf(answers, merged) == AnyOf(Answers(groups), merged + [m]);
      if groups == [] {
        SameConclusion(flat + obs, merged + [m]);
      } else {
        assert flat + obs + [] == flat + obs;
        LevelsAgree(groups[0].name, groups[0].tries, [], groups[1..], flat + obs, merged + [m]);
      }
    }
  }

  /** Under policy any, merging first within each verifier and then across verifiers gives exactly the verdict
      of all tries taken one by one, errors and early exits included. */
  lemma TwoLevelsAreOne(groups: seq<Group>)
    requires forall i :: 0 <= i < |groups| ==> groups[i].Valid()
    ensures AnyOf(Answers(groups), []) == AnyOf(Flat(groups), [])
  {
    if groups != [] {
      LevelsAgree(groups[0].name, groups[0].tries, [], groups[1..], [], []);
      var none: seq<Observation> := [];
      assert none + [] == none;
    }
  }

  /** Absent hard errors, the verdict is Verified if and only if some answer is. */
  lemma {:induction false} AnyIsVerifiedIff(answers: seq<Answer>, sofar: seq<Observation>)
    requires forall i :: 0 <= i < |answers| ==> answers[i].verdict.Observed?
    requires forall i :: 0 <= i < |sofar| ==> !sofar[i].status.Verified?
    ensures AnyOf(answers, sofar).Observed?
    ensures AnyOf(answers, sofar).observation.status.Verified? <==>
              exists i :: 0 <= i < |answers| && answers[i].verdict.observation.status.Verified?
  {
    if answers != [] && !answers[0].verdict.observation.status.Verified? {
      AnyIsVerifiedIff(answers[1..], sofar + [answers[0].verdict.observation]);
      assert forall i :: 0 < i < |answers| ==> answers[i] == answers[1..][i - 1];
    } else if answers == [] && sofar != [] {
      assert Best(sofar) in sofar;
    }
  }

  /** So under policy any, absent hard errors, an image is Verified if and only if some single try of some verifier
      verifies it. */
  lemma AnyTryDecides(groups: seq<Group>)
    requires forall i :: 0 <= i < |groups| ==> groups[i].Valid()
    requires forall i :: 0 <= i < |Flat(groups)| ==> Flat(groups)[i].verdict.Observed?
    ensures AnyOf(Answers(groups), []).Observed?
    ensures AnyOf(Answers(groups), []).observation.status.Verified? <==>
              exists i :: 0 <= i < |Flat(groups)| && Flat(groups)[i].verdict.observation.status.Verified?
  {
    TwoLevelsAreOne(groups);
    AnyIsVerifiedIff(Flat(groups), []);
  }

  // ----- What a keyed cosign try can be -----

  datatype CosignRun =
    | BinaryMissing
    | Rejected(status: Status, reason: string)     // classified from cosign's output
    | Unparsable(reason: string)
    | Accepted(signers: seq<Signer>, reason: string)

  function KeyedTry(name: string, keyRef: string, attestationType: string, run: CosignRun): Verdict {
    match run
    case BinaryMissing =>
      Observed(Observation(name, "", VerificationError, "cosign binary not available", "", NO_SIGNER, []))
    case Rejected(status, reason) => Observed(Observation(name, "", status, reason, "", NO_SIGNER, []))
    case Unparsable(reason) => Observed(Observation(name, "", VerificationError, reason, "", NO_SIGNER, []))
    case Accepted(signers, reason) =>
      var signer :=
        if |signers| > 0 then Signer(signers[0].issuer, signers[0].subject, keyRef) else Signer("", "", keyRef);
      Observed(Observation(name, "", Verified, reason, attestationType, signer, signers))
  }

  /** The tries of one key, whose runs of cosign may differ from those of an equal key. */
  function KeyedRow(name: string, key: string, types: seq<string>, runs: seq<CosignRun>): seq<Verdict>
    requires |runs| == |types|
  {
    seq(|types|, j requires 0 <= j < |types| => KeyedTry(name, key, types[j], runs[j]))
  }

  function KeyedRows(name: string, keys: seq<string>, types: seq<string>, runs: seq<seq<CosignRun>>): seq<seq<Verdict>>
    requires |runs| == |keys| && forall i :: 0 <= i < |runs| ==> |runs[i]| == |types|
  {
    seq(|keys|, i requires 0 <= i < |keys| => KeyedRow(name, keys[i], types, runs[i]))
  }

  ghost predicate ModeIs(v: Verdict, name: string) {
    v.Observed? ==> v.observation.mode == name
  }

  /** The tries of a keyed verifier meet what TwoLevelsAreOne asks of a group. */
  lemma KeyedTriesAreValid(name: string, keys: seq<string>, types: seq<string>, runs: seq<seq<CosignRun>>)
    requires |runs| == |keys| > 0 && |types| > 0 && forall i :: 0 <= i < |runs| ==> |runs[i]| == |types|
    ensures Group(name, InOrder(KeyedRows(name, keys, types, runs))).Valid()
  {
    var rows := KeyedRows(name, keys, types, runs);
    RowsKeepMode(name, rows);
    var tries := InOrder(rows);
    assert |rows[0]| > 0 && tries == rows[0] + InOrder(rows[1..]);
    assert forall i :: 0 <= i < |tries| ==> ModeIs(tries[i], name);
  }

  lemma {:induction false} RowsKeepMode(name: string, rows: seq<seq<Verdict>>)
    requires forall i, j :: 0 <= i < |rows| && 0 <= j < |rows[i]| ==> ModeIs(rows[i][j], name)
    ensures forall v :: v in InOrder(rows) ==> ModeIs(v, name)
  {
    if rows != [] {
      RowsKeepMode(name, rows[1..]);
    }
  }

  lemma {:induction false} TriesBeforeGrows(rows: seq<seq<Verdict>>, a: nat, b: nat)
    requires a <= b <= |rows|
    ensures TriesBefore(rows, a) <= TriesBefore(rows, b)
  {
    if a < b {
      TriesBeforeGrows(rows, a, b - 1);
    }
  }

  /** The row and the place in it of a try. */
  lemma {:induction false} EntryOf(rows: seq<seq<Verdict>>, m: nat, p: nat) returns (i: nat, j: nat)
    requires m <= |rows| && p < TriesBefore(rows, m)
    ensures i < m && j < |rows[i]| && p == TriesBefore(rows, i) + j
  {
    if p >= TriesBefore(rows, m - 1) {
      i, j := m - 1, p - TriesBefore(rows, m - 1);
    } else {
      i, j := EntryOf(rows, m - 1, p);
    }
  }

  /** The first entry that ends the tries, in the order of the nested loops, decides. */
  lemma FirstEntryDecides(name: string, rows: seq<seq<Verdict>>, i: nat, j: nat)
    requires i < |rows| && j < |rows[i]| && Ends(rows[i][j])
    requires forall k, l :: 0 <= k <= i && 0 <= l < |rows[k]| && (k < i || l < j) ==> !Ends(rows[k][l])
    ensures Tried(name, InOrder(rows), []) == rows[i][j]
  {
    var q := InOrder(rows);
    var p := TriesBefore(rows, i) + j;
    InOrderAt(rows, i, j);
    InOrderLength(rows);
    forall x | 0 <= x < p ensures !Ends(q[x]) {
      var k, l := EntryOf(rows, |rows|, x);
      InOrderAt(rows, k, l);
      if k > i {
        TriesBeforeGrows(rows, i + 1, k);
        assert false;
      }
    }
    FirstEndDecides(name, q, [], p);
  }

  /** Cosign ran and found what it was asked for; failures are never classified as verified. */
  predicate Accepts(run: CosignRun) {
    run.Accepted? || (run.Rejected? && run.status.Verified?)
  }

  /** The first run that cosign accepts, keys before types, gives the verdict: it names that key, that type and the
      signers of that run. */
  lemma FirstAcceptedIsNamed(name: string, keys: seq<string>, types: seq<string>, runs: seq<seq<CosignRun>>,
                             i: nat, j: nat)
    requires |runs| == |keys| && forall k :: 0 <= k < |runs| ==> |runs[k]| == |types|
    requires i < |keys| && j < |types| && runs[i][j].Accepted?
    requires forall k, l :: 0 <= k <= i && 0 <= l < |types| && (k < i || l < j) ==> !Accepts(runs[k][l])
    ensures var v := Tried(name, InOrder(KeyedRows(name, keys, types, runs)), []);
      && v.Observed? && v.observation.status.Verified? && v.observation.mode == name
      && v.observation.attestationType == types[j] && v.observation.signer.keyRef == keys[i]
      && v.observation.signers == runs[i][j].signers && v.observation.reason == runs[i][j].reason
      && (runs[i][j].signers == [] ==> v.observation.signer == Signer("", "", keys[i]))
      && (runs[i][j].signers != [] ==> v.observation.signer == runs[i][j].signers[0].(keyRef := keys[i]))
  {
    FirstEntryDecides(name, KeyedRows(name, keys, types, runs), i, j);
  }

  lemma TriesAreAnonymous(name: string, keys: seq<string>, types: seq<string>, runs: seq<seq<CosignRun>>, x: nat)
    requires |runs| == |keys| && forall k :: 0 <= k < |runs| ==> |runs[k]| == |types|
    requires forall k, l :: 0 <= k < |keys| && 0 <= l < |types| ==> !Accepts(runs[k][l])
    requires x < |InOrder(KeyedRows(name, keys, types, runs))|
    ensures var v := InOrder(KeyedRows(name, keys, types, runs))[x]; !Ends(v) && IsAnonymous(v)
  {
    var rows := KeyedRows(name, keys, types, runs);
    InOrderLength(rows);
    var k, l := EntryOf(rows, |rows|, x);
    InOrderAt(rows, k, l);
    assert rows[k][l] == KeyedTry(name, keys[k], types[l], runs[k][l]);
  }

  lemma AnonymousMerge(name: string, tries: seq<Verdict>)
    requires NoneEnds(tries) && forall i :: 0 <= i < |tries| ==> IsAnonymous(tries[i])
    ensures var v := Tried(name, tries, []);
      IsAnonymous(v) && !v.observation.status.Verified? && v.observation.mode == name
  {
    NoEndMerges(name, tries, []);
    var obs := ObservationsOf(tries);
    assert [] + obs == obs;
    if obs != [] {
      var i := MergedIsReported(obs);
      assert IsAnonymous(tries[i]) && !Ends(tries[i]);
    }
  }

  /** Without such a run the image is not verified, and nobody is named as its signer. */
  lemma NoneAcceptedIsUnverified(name: string, keys: seq<string>, types: seq<string>, runs: seq<seq<CosignRun>>)
    requires |runs| == |keys| && forall k :: 0 <= k < |runs| ==> |runs[k]| == |types|
    requires forall k, l :: 0 <= k < |keys| && 0 <= l < |types| ==> !Accepts(runs[k][l])
    ensures var v := Tried(name, InOrder(KeyedRows(name, keys, types, runs)), []);
      IsAnonymous(v) && !v.observation.status.Verified? && v.observation.mode == name
  {
    var tries := InOrder(KeyedRows(name, keys, types, runs));
    forall x: nat | x < |tries| ensures !Ends(tries[x]) && IsAnonymous(tries[x]) {
      TriesAreAnonymous(name, keys, types, runs, x);
    }
    AnonymousMerge(name, tries);
  }

  /** An observation that names no signer. */
  ghost predicate IsAnonymous(v: Verdict) {
    v.Observed? && v.observation.signer == Signer("", "", "") && v.observation.signers == []
  }

  // ----- Policy all -----

  function AllOf(answers: seq<Answer>, sofar: seq<Observation>): Verdict {
    if answers == [] then
      Observed(if sofar == [] then NOTHING_TO_MERGE else AllMerged(sofar))
    else
      match answers[0].verdict
      case Failed(e) => Failed(By(answers[0].name, e))
      case Observed(o) =>
        if o.status.Verified? then AllOf(answers[1..], sofar + [o]) else Observed(Fill(o))
  }

  predicate SignerIsEmpty(s: Signer) {
    s.issuer == "" && s.subject == "" && s.keyRef == ""
  }

  predicate IsSignatureMode(mode: string) {
    mode == "cosign-keyless" || mode == "cosign-key"
  }

  predicate IsAttestationMode(mode: string) {
    mode == "cosign-attestation-keyless" || mode == "cosign-attestation-key"
  }

  function LastType(attempts: seq<Observation>, default: string): string {
    if attempts == [] then default
    else
      var last := attempts[|attempts| - 1].attestationType;
      if last != "" then last else LastType(attempts[..|attempts| - 1], default)
  }

  function FirstSigner(attempts: seq<Observation>, ofMode: string -> bool, default: Signer): Signer {
    if attempts == [] then default
    else if ofMode(attempts[0].mode) && !SignerIsEmpty(attempts[0].signer) then attempts[0].signer
    else FirstSigner(attempts[1..], ofMode, default)
  }

  function AllSigners(attempts: seq<Observation>): seq<Signer> {
    if attempts == [] then [] else AllSigners(attempts[..|attempts| - 1]) + attempts[|attempts| - 1].signers
  }

  function SignerKey(s: Signer): string {
    s.issuer + "\0" + s.subject + "\0" + s.keyRef
  }

  /** Keys of those of the first `n` signers that are not empty. */
  function KeysTo(signers: seq<Signer>, n: nat): set<string>
    requires n <= |signers|
  {
    if n == 0 then {}
    else if SignerIsEmpty(signers[n - 1]) then KeysTo(signers, n - 1)
    else KeysTo(signers, n - 1) + {SignerKey(signers[n - 1])}
  }

  /** A signer that is not empty and whose key did not occur before. */
  predicate IsFirst(signers: seq<Signer>, p: nat)
    requires p < |signers|
  {
    !SignerIsEmpty(signers[p]) && SignerKey(signers[p]) !in KeysTo(signers, p)
  }

  function DedupedTo(signers: seq<Signer>, n: nat): seq<Signer>
    requires n <= |signers|
  {
    if n == 0 then []
    else if IsFirst(signers, n - 1) then DedupedTo(signers, n - 1) + [signers[n - 1]]
    else DedupedTo(signers, n - 1)
  }

  function Deduped(signers: seq<Signer>): seq<Signer> {
    DedupedTo(signers, |signers|)
  }

  function AllMerged(attempts: seq<Observation>): Observation
    requires attempts != []
  {
    var last := Fill(attempts[|attempts| - 1]);
    var signer := FirstSigner(attempts, IsSignatureMode, last.signer);
    last.(attestationType := LastType(attempts, ""),
          signer := if SignerIsEmpty(signer) then FirstSigner(attempts, IsAttestationMode, signer) else signer,
          signers := Deduped(AllSigners(attempts)),
          reason := "all configured verification modes succeeded")
  }

  method DedupeSigners(signers: seq<Signer>) returns (deduped: seq<Signer>)
    ensures deduped == Deduped(signers)
  {
    deduped := [];
    if |signers| == 0 {
      return;
    }
    var seen: set<string> := {};
    for i := 0 to |signers|
      invariant deduped == DedupedTo(signers, i)
      invariant seen == KeysTo(signers, i)
    {
      var signer := signers[i];
      if SignerIsEmpty(signer) {
        continue;
      }
      var key := SignerKey(signer);
      if key in seen {
        assert seen + {key} == seen;
        continue;
      }
      seen := seen + {key};
      deduped := deduped + [signer];
    }
  }

  predicate IsVerified(a: Answer) {
    a.verdict.Observed? && a.verdict.observation.status.Verified?
  }

  ghost predicate AllVerified(answers: seq<Answer>) {
    forall i :: 0 <= i < |answers| ==> IsVerified(answers[i])
  }

  ghost function VerifiedObservations(answers: seq<Answer>): (r: seq<Observation>)
    requires AllVerified(answers)
    ensures |r| == |answers|
    ensures forall i :: 0 <= i < |r| ==> IsVerified(answers[i]) && r[i] == answers[i].verdict.observation
  {
    seq(|answers|, i requires 0 <= i < |answers| => (assert IsVerified(answers[i]); answers[i].verdict.observation))
  }

  /** The first answer that is not verified decides policy all, whatever follows it. */
  lemma {:induction false} FirstRefusalDecides(answers: seq<Answer>, sofar: seq<Observation>, i: nat)
    requires i < |answers| && !IsVerified(answers[i])
    requires forall j :: 0 <= j < i ==> IsVerified(answers[j])
    ensures AllOf(answers, sofar) == Ended(answers[i])
  {
    if i > 0 {
      FirstRefusalDecides(answers[1..], sofar + [answers[0].verdict.observation], i - 1);
    }
  }

  lemma {:induction false} AllVerifiedMerges(answers: seq<Answer>, sofar: seq<Observation>)
    requires AllVerified(answers)
    ensures AllOf(answers, sofar) == AllOf([], sofar + VerifiedObservations(answers))
  {
    if answers == [] {
      assert sofar + VerifiedObservations(answers) == sofar;
    } else {
      assert IsVerified(answers[0]);
      var o := answers[0].verdict.observation;
      AllVerifiedMerges(answers[1..], sofar + [o]);
      assert sofar + [o] + VerifiedObservations(answers[1..]) == sofar + VerifiedObservations(answers);
    }
  }

  lemma {:induction false} FirstRefusal(answers: seq<Answer>) returns (i: nat)
    requires !AllVerified(answers)
    ensures i < |answers| && !IsVerified(answers[i]) && forall j :: 0 <= j < i ==> IsVerified(answers[j])
  {
    if !IsVerified(answers[0]) {
      i := 0;
    } else {
      assert forall j :: 0 < j < |answers| ==> answers[j] == answers[1..][j - 1];
      var rest := FirstRefusal(answers[1..]);
      i := rest + 1;
    }
  }

  lemma AllVerifiedVerdict(answers: seq<Answer>)
    requires answers != [] && AllVerified(answers)
    ensures AllOf(answers, []) == Observed(AllMerged(VerifiedObservations(answers)))
    ensures AllMerged(VerifiedObservations(answers)).status.Verified?
  {
    AllVerifiedMerges(answers, []);
    var obs := VerifiedObservations(answers);
    assert [] + obs == obs;
    assert IsVerified(answers[|answers| - 1]);
  }

  lemma RefusedVerdict(answers: seq<Answer>)
    requires !AllVerified(answers)
    ensures AllOf(answers, []).Failed? || !AllOf(answers, []).observation.status.Verified?
  {
    var i := FirstRefusal(answers);
    FirstRefusalDecides(answers, [], i);
  }

  /** Policy all says Verified if and only if there is a verifier and every one of them says so; the merged
      observation then collects the signers of all of them. */
  lemma AllIsVerifiedIff(answers: seq<Answer>)
    ensures AllOf(answers, []).Observed? && AllOf(answers, []).observation.status.Verified? <==>
              answers != [] && AllVerified(answers)
    ensures answers != [] && AllVerified(answers) ==>
              AllOf(answers, []) == Observed(AllMerged(VerifiedObservations(answers)))
  {
    if answers != [] {
      if AllVerified(answers) {
        AllVerifiedVerdict(answers);
      } else {
        RefusedVerdict(answers);
      }
    }
  }

  // ----- Deduplicated signers -----

  lemma {:induction false} KeysToMember(signers: seq<Signer>, n: nat, p: nat)
    requires p < n <= |signers| && !SignerIsEmpty(signers[p])
    ensures SignerKey(signers[p]) in KeysTo(signers, n)
  {
    if p < n - 1 {
      KeysToMember(signers, n - 1, p);
    }
  }

  /** The signers kept, by position: in order, and only first occurrences of a key. */
  lemma {:induction false} DedupedPicksFirsts(signers: seq<Signer>, n: nat) returns (at: seq<nat>)
    requires n <= |signers|
    ensures |at| == |DedupedTo(signers, n)|
    ensures forall i :: 0 <= i < |at| ==> at[i] < n && DedupedTo(signers, n)[i] == signers[at[i]]
    ensures forall i :: 0 <= i < |at| ==> IsFirst(signers, at[i])
    ensures forall i, j :: 0 <= i < j < |at| ==> at[i] < at[j]
  {
    at := [];
    if n > 0 {
      at := DedupedPicksFirsts(signers, n - 1);
      if IsFirst(signers, n - 1) {
        at := at + [n - 1];
      }
    }
  }

  /** Every first occurrence is kept. */
  lemma {:induction false} FirstIsKept(signers: seq<Signer>, n: nat, p: nat)
    requires p < n <= |signers| && IsFirst(signers, p)
    ensures signers[p] in DedupedTo(signers, n)
  {
    if p < n - 1 {
      FirstIsKept(signers, n - 1, p);
    }
  }

  /** Deduplication loses no key. */
  lemma {:induction false} KeyIsKept(signers: seq<Signer>, n: nat, p: nat) returns (t: Signer)
    requires p < n <= |signers| && !SignerIsEmpty(signers[p])
    ensures t in DedupedTo(signers, n) && t in signers && SignerKey(t) == SignerKey(signers[p])
  {
    if p < n - 1 {
      t := KeyIsKept(signers, n - 1, p);
    } else if IsFirst(signers, p) {
      t := signers[p];
    } else {
      var q := KeyWasSeen(signers, p, SignerKey(signers[p]));
      t := KeyIsKept(signers, n - 1, q);
    }
  }

  lemma {:induction false} KeyWasSeen(signers: seq<Signer>, n: nat, key: string) returns (p: nat)
    requires n <= |signers| && key in KeysTo(signers, n)
    ensures p < n && !SignerIsEmpty(signers[p]) && SignerKey(signers[p]) == key
  {
    p := n - 1;
    if SignerIsEmpty(signers[p]) || SignerKey(signers[p]) != key {
      p := KeyWasSeen(signers, n - 1, key);
    }
  }

  // ----- Keys of signers -----

  /** Different signers have different keys. */
  ghost predicate KeysTellApart(signers: seq<Signer>) {
    forall x, y :: x in signers && y in signers && SignerKey(x) == SignerKey(y) ==> x == y
  }

  predicate NulFree(s: Signer) {
    '\0' !in s.issuer && '\0' !in s.subject
  }

  /** Text before the first NUL is determined by the joined text. */
  lemma {:induction false} SplitAtNul(a: string, b: string, c: string, d: string)
    requires '\0' !in a && '\0' !in c && a + "\0" + b == c + "\0" + d
    ensures a == c && b == d
  {
    var left, right := a + "\0" + b, c + "\0" + d;
    assert left[|a|] == '\0' && right[|c|] == '\0';
    assert forall i :: 0 <= i < |a| ==> left[i] == a[i];
    assert forall i :: 0 <= i < |c| ==> right[i] == c[i];
    assert forall i :: 0 <= i < |c| ==> right[i] in c && right[i] != '\0';
    assert forall i :: 0 <= i < |a| ==> left[i] in a && left[i] != '\0';
    assert |a| == |c|;
    assert a == left[..|a|] && c == right[..|c|];
    assert b == left[|a| + 1..] && d == right[|c| + 1..];
  }

  lemma NulFreeKeysTellApart(signers: seq<Signer>)
    requires forall s :: s in signers ==> NulFree(s)
    ensures KeysTellApart(signers)
  {
    forall x, y | x in signers && y in signers && SignerKey(x) == SignerKey(y) ensures x == y {
      assert SignerKey(x) == x.issuer + "\0" + (x.subject + "\0" + x.keyRef);
      assert SignerKey(y) == y.issuer + "\0" + (y.subject + "\0" + y.keyRef);
      SplitAtNul(x.issuer, x.subject + "\0" + x.keyRef, y.issuer, y.subject + "\0" + y.keyRef);
      SplitAtNul(x.subject, x.keyRef, y.subject, y.keyRef);
    }
  }

  /** What is kept is never empty, and no key is kept twice. */
  lemma DedupedIsClean(signers: seq<Signer>)
    ensures forall s :: s in Deduped(signers) ==> s in signers && !SignerIsEmpty(s)
    ensures forall i, j :: 0 <= i < j < |Deduped(signers)| ==>
                             SignerKey(Deduped(signers)[i]) != SignerKey(Deduped(signers)[j])
  {
    var d := Deduped(signers);
    var at := DedupedPicksFirsts(signers, |signers|);
    forall s | s in d ensures s in signers && !SignerIsEmpty(s) {
      var i :| 0 <= i < |d| && d[i] == s;
      assert IsFirst(signers, at[i]);
    }
    forall i, j | 0 <= i < j < |d| ensures SignerKey(d[i]) != SignerKey(d[j]) {
      assert IsFirst(signers, at[j]) && IsFirst(signers, at[i]);
      KeysToMember(signers, at[j], at[i]);
    }
  }

  /** Every signer that is not empty is kept if and only if keys tell the signers apart. */
  lemma DedupedKeepsAllIff(signers: seq<Signer>)
    ensures (forall s :: s in signers && !SignerIsEmpty(s) ==> s in Deduped(signers)) <==> KeysTellApart(signers)
  {
    var d := Deduped(signers);
    DedupedIsClean(signers);
    if KeysTellApart(signers) {
      forall s | s in signers && !SignerIsEmpty(s) ensures s in d {
        var p :| 0 <= p < |signers| && signers[p] == s;
        var t := KeyIsKept(signers, |signers|, p);
      }
    }
    if forall s :: s in signers && !SignerIsEmpty(s) ==> s in d {
      forall x, y | x in signers && y in signers && SignerKey(x) == SignerKey(y) ensures x == y {
        assert |x.issuer| + |x.subject| + |x.keyRef| == |y.issuer| + |y.subject| + |y.keyRef|;
        if !SignerIsEmpty(x) {
          var i :| 0 <= i < |d| && d[i] == x;
          var j :| 0 <= j < |d| && d[j] == y;
        }
      }
    }
  }

  /** Without that, a signer can be lost: these two share a key and differ. */
  lemma NulCanLoseSigner()
    ensures var x, y := Signer("a\0b", "c", "d"), Signer("a", "b\0c", "d");
      x != y && y in [x, y] && y !in Deduped([x, y])
  {
    var x, y := Signer("a\0b", "c", "d"), Signer("a", "b\0c", "d");
    assert x.issuer[1] != 'b' && |x.issuer| == 3 && |y.issuer| == 1;
    assert SignerKey(x) == "a\0b\0c\0d" && SignerKey(y) == "a\0b\0c\0d";
    assert KeysTo([x, y], 1) == {SignerKey(x)};
    assert DedupedTo([x, y], 1) == [x];
    assert Deduped([x, y]) == [x];
  }

  // ----- What policy all collects -----

  /** Places of signers: a verifier, and a position in its list. */
  type Place = (nat, nat)

  predicate Before(x: Place, y: Place) {
    x.0 < y.0 || (x.0 == y.0 && x.1 < y.1)
  }

  predicate IsPlace(attempts: seq<Observation>, x: Place) {
    x.0 < |attempts| && x.1 < |attempts[x.0].signers|
  }

  function SignerAt(attempts: seq<Observation>, x: Place): Signer
    requires IsPlace(attempts, x)
  {
    attempts[x.0].signers[x.1]
  }

  /** The list takes its signers from these places, those of earlier verifiers first. */
  ghost predicate TakenFrom(signers: seq<Signer>, attempts: seq<Observation>, at: seq<Place>) {
    && |at| == |signers|
    && (forall p :: 0 <= p < |at| ==> IsPlace(attempts, at[p]) && signers[p] == SignerAt(attempts, at[p]))
    && (forall p, q :: 0 <= p < q < |at| ==> Before(at[p], at[q]))
  }

  lemma TakenFromGrows(signers: seq<Signer>, attempts: seq<Observation>, at: seq<Place>, last: Observation)
    returns (all: seq<Place>)
    requires TakenFrom(signers, attempts, at)
    ensures TakenFrom(signers + last.signers, attempts + [last], all)
    ensures forall x :: x in all <==> x in at || (x.0 == |attempts| && x.1 < |last.signers|)
  {
    var q := attempts + [last];
    var more := seq(|last.signers|, j requires 0 <= j < |last.signers| => (|attempts|, j));
    assert forall j :: 0 <= j < |more| ==> more[j] == (|attempts|, j);
    assert forall x: Place :: x.0 == |attempts| && x.1 < |more| ==> more[x.1] == x;
    assert forall p :: 0 <= p < |at| ==> IsPlace(q, at[p]) && SignerAt(q, at[p]) == SignerAt(attempts, at[p]);
    all := at + more;
  }

  /** All signers of all verifiers, from every place. */
  lemma {:induction false} AllSignersTaken(attempts: seq<Observation>) returns (at: seq<Place>)
    ensures TakenFrom(AllSigners(attempts), attempts, at)
    ensures forall x :: x in at <==> IsPlace(attempts, x)
  {
    at := [];
    if attempts != [] {
      var n := |attempts| - 1;
      var front := AllSignersTaken(attempts[..n]);
      at := TakenFromGrows(AllSigners(attempts[..n]), attempts[..n], front, attempts[n]);
      assert attempts[..n] + [attempts[n]] == attempts;
      assert forall x: Place :: x.0 < n ==> (IsPlace(attempts[..n], x) <==> IsPlace(attempts, x));
    }
  }

  /** The signer at a place is in the list, or one with the same key from an earlier place. */
  ghost predicate IsCollected(signers: seq<Signer>, attempts: seq<Observation>, at: seq<Place>, x: Place)
    requires IsPlace(attempts, x) && |at| == |signers|
  {
    exists p :: 0 <= p < |at| && SignerKey(signers[p]) == SignerKey(SignerAt(attempts, x)) && !Before(x, at[p])
  }

  /** The list has the signers of all verifiers that are not empty, in their order, the first one of each key. */
  ghost predicate CollectsFrom(signers: seq<Signer>, attempts: seq<Observation>, at: seq<Place>) {
    && TakenFrom(signers, attempts, at)
    && (forall p :: 0 <= p < |signers| ==> signers[p] != Signer("", "", ""))
    && (forall p, q :: 0 <= p < q < |signers| ==> SignerKey(signers[p]) != SignerKey(signers[q]))
    && (forall x :: IsPlace(attempts, x) && SignerAt(attempts, x) != Signer("", "", "") ==>
          IsCollected(signers, attempts, at, x))
  }

  lemma DedupedTaken(all: seq<Signer>, attempts: seq<Observation>, at: seq<Place>, keep: seq<nat>)
    returns (kept: seq<Place>)
    requires TakenFrom(all, attempts, at) && |keep| == |Deduped(all)|
    requires forall i :: 0 <= i < |keep| ==> keep[i] < |all| && Deduped(all)[i] == all[keep[i]]
    requires forall i, j :: 0 <= i < j < |keep| ==> keep[i] < keep[j]
    ensures TakenFrom(Deduped(all), attempts, kept)
    ensures forall i :: 0 <= i < |keep| ==> kept[i] == at[keep[i]]
  {
    kept := seq(|keep|, i requires 0 <= i < |keep| => at[keep[i]]);
  }

  /** Of each key the first signer is kept. */
  lemma FirstOfKeyIsKept(all: seq<Signer>, keep: seq<nat>, p: nat) returns (i: nat)
    requires p < |all| && !SignerIsEmpty(all[p]) && |keep| == |Deduped(all)|
    requires forall i :: 0 <= i < |keep| ==> keep[i] < |all| && Deduped(all)[i] == all[keep[i]] && IsFirst(all, keep[i])
    ensures i < |keep| && SignerKey(Deduped(all)[i]) == SignerKey(all[p]) && keep[i] <= p
  {
    var t := KeyIsKept(all, |all|, p);
    i :| 0 <= i < |keep| && Deduped(all)[i] == t;
    if keep[i] > p {
      KeysToMember(all, keep[i], p);
      assert false;
    }
  }

  lemma PlaceIsCollected(all: seq<Signer>, attempts: seq<Observation>, at: seq<Place>, keep: seq<nat>, kept: seq<Place>,
                         x: Place)
    requires TakenFrom(all, attempts, at) && |keep| == |kept| == |Deduped(all)|
    requires forall i :: 0 <= i < |keep| ==> keep[i] < |all| && Deduped(all)[i] == all[keep[i]] && IsFirst(all, keep[i])
    requires forall i :: 0 <= i < |keep| ==> kept[i] == at[keep[i]]
    requires x in at && IsPlace(attempts, x) && SignerAt(attempts, x) != Signer("", "", "")
    ensures IsCollected(Deduped(all), attempts, kept, x)
  {
    var p :| 0 <= p < |at| && at[p] == x;
    var i := FirstOfKeyIsKept(all, keep, p);
    assert !Before(x, kept[i]);
  }

  lemma AllSignersCollected(attempts: seq<Observation>) returns (kept: seq<Place>)
    ensures CollectsFrom(Deduped(AllSigners(attempts)), attempts, kept)
  {
    var all := AllSigners(attempts);
    var at := AllSignersTaken(attempts);
    var keep := DedupedPicksFirsts(all, |all|);
    kept := DedupedTaken(all, attempts, at, keep);
    DedupedIsClean(all);
    forall x | IsPlace(attempts, x) && SignerAt(attempts, x) != Signer("", "", "")
      ensures IsCollected(Deduped(all), attempts, kept, x)
    {
      PlaceIsCollected(all, attempts, at, keep, kept, x);
    }
  }

  /** The last attestation type that is given, if any is. */
  ghost predicate IsLastType(t: string, attempts: seq<Observation>) {
    if forall i :: 0 <= i < |attempts| ==> attempts[i].attestationType == "" then t == ""
    else
      exists i :: 0 <= i < |attempts| && attempts[i].attestationType == t != "" &&
        forall j :: i < j < |attempts| ==> attempts[j].attestationType == ""
  }

  lemma {:induction false} LastTypeIsLast(attempts: seq<Observation>)
    ensures IsLastType(LastType(attempts, ""), attempts)
  {
    if attempts != [] && attempts[|attempts| - 1].attestationType == "" {
      LastTypeIsLast(attempts[..|attempts| - 1]);
    }
  }

  ghost predicate HasSigner(attempts: seq<Observation>, modes: set<string>) {
    exists i :: 0 <= i < |attempts| && attempts[i].mode in modes && attempts[i].signer != Signer("", "", "")
  }

  /** The first signer that an observation of one of the modes gives. */
  ghost predicate IsFirstSigner(signer: Signer, attempts: seq<Observation>, modes: set<string>) {
    exists i :: 0 <= i < |attempts| && attempts[i].mode in modes &&
      attempts[i].signer == signer != Signer("", "", "") &&
      forall j :: 0 <= j < i && attempts[j].mode in modes ==> attempts[j].signer == Signer("", "", "")
  }

  lemma {:induction false} FirstSignerIsFirst(attempts: seq<Observation>, ofMode: string -> bool, modes: set<string>,
                                              default: Signer)
    requires forall m :: ofMode(m) <==> m in modes
    ensures if HasSigner(attempts, modes) then IsFirstSigner(FirstSigner(attempts, ofMode, default), attempts, modes)
            else FirstSigner(attempts, ofMode, default) == default
  {
    if attempts != [] && !(ofMode(attempts[0].mode) && !SignerIsEmpty(attempts[0].signer)) {
      FirstSignerIsFirst(attempts[1..], ofMode, modes, default);
      assert forall i :: 0 < i < |attempts| ==> attempts[i] == attempts[1..][i - 1];
    }
  }

  /** The signer reported: the first one of a signature mode, else that of the last observation, else the first one of
      an attestation mode. */
  ghost predicate IsMainSigner(signer: Signer, attempts: seq<Observation>)
    requires attempts != []
  {
    var signature, attestation :=
      {"cosign-keyless", "cosign-key"}, {"cosign-attestation-keyless", "cosign-attestation-key"};
    var last := attempts[|attempts| - 1].signer;
    if HasSigner(attempts, signature) then IsFirstSigner(signer, attempts, signature)
    else if last != Signer("", "", "") then signer == last
    else if HasSigner(attempts, attestation) then IsFirstSigner(signer, attempts, attestation)
    else signer == last
  }

  /** What the merge of verified observations says: the last of them, with what the others add. */
  ghost predicate Collects(attempts: seq<Observation>, r: Observation)
    requires attempts != []
  {
    var last := attempts[|attempts| - 1];
    && r.status == last.status && r.mode == last.mode
    && r.verifiedBy == (if last.verifiedBy == "" then last.mode else last.verifiedBy)
    && r.reason == "all configured verification modes succeeded"
    && IsLastType(r.attestationType, attempts) && IsMainSigner(r.signer, attempts)
    && exists at :: CollectsFrom(r.signers, attempts, at)
  }

  lemma MainSignerIsMain(attempts: seq<Observation>)
    requires attempts != []
    ensures IsMainSigner(AllMerged(attempts).signer, attempts)
  {
    var last := attempts[|attempts| - 1].signer;
    FirstSignerIsFirst(attempts, IsSignatureMode, {"cosign-keyless", "cosign-key"}, last);
    var signer := FirstSigner(attempts, IsSignatureMode, last);
    FirstSignerIsFirst(attempts, IsAttestationMode, {"cosign-attestation-keyless", "cosign-attestation-key"}, signer);
  }

  lemma AllMergedCollects(attempts: seq<Observation>)
    requires attempts != []
    ensures Collects(attempts, AllMerged(attempts))
  {
    MainSignerIsMain(attempts);
    LastTypeIsLast(attempts);
    var at := AllSignersCollected(attempts);
  }

  /** What policy all comes to: the first answer that is not verified, or an observation that collects from all. */
  ghost predicate AllComesTo(answers: seq<Answer>, r: Verdict) {
    && (forall i :: 0 <= i < |answers| && !IsVerified(answers[i]) && AllVerified(answers[..i]) ==>
          r == Ended(answers[i]))
    && (answers == [] ==> r.Observed? && r.observation.status.VerificationError?)
    && (answers != [] && AllVerified(answers) ==>
          r.Observed? && r.observation.status.Verified? && Collects(VerifiedObservations(answers), r.observation))
  }

  lemma AllIsRight(answers: seq<Answer>)
    ensures AllComesTo(answers, AllOf(answers, []))
  {
    forall i | 0 <= i < |answers| && !IsVerified(answers[i]) && AllVerified(answers[..i])
      ensures AllOf(answers, []) == Ended(answers[i])
    {
      assert forall j :: 0 <= j < i ==> IsVerified(answers[..i][j]);
      FirstRefusalDecides(answers, [], i);
    }
    if answers != [] && AllVerified(answers) {
      AllVerifiedVerdict(answers);
      AllMergedCollects(VerifiedObservations(answers));
    }
  }

  // ----- The loops of policy all -----

  method FindSigner(attempts: seq<Observation>, ofMode: string -> bool, default: Signer) returns (signer: Signer)
    ensures signer == FirstSigner(attempts, ofMode, default)
  {
    assert attempts[0..] == attempts;
    for i := 0 to |attempts|
      invariant FirstSigner(attempts[i..], ofMode, default) == FirstSigner(attempts, ofMode, default)
    {
      assert attempts[i..][0] == attempts[i] && attempts[i..][1..] == attempts[i + 1..];
      if ofMode(attempts[i].mode) && !SignerIsEmpty(attempts[i].signer) {
        return attempts[i].signer;
      }
    }
    return default;
  }

  method MergeVerifiedObservations(attempts: seq<Observation>) returns (merged: Observation)
    requires attempts != []
    ensures merged == AllMerged(attempts) && Collects(attempts, merged)
  {
    AllMergedCollects(attempts);
    merged := Fill(attempts[|attempts| - 1]);
    ghost var last := merged;
    assert attempts[..|attempts|] == attempts;
    var attestationType := "";
    for i := 0 to |attempts|
      invariant attestationType == LastType(attempts[..i], "")
    {
      assert attempts[..i + 1][..i] == attempts[..i];
      if attempts[i].attestationType != "" {
        attestationType := attempts[i].attestationType;
      }
    }
    var signer := FindSigner(attempts, IsSignatureMode, merged.signer);
    if SignerIsEmpty(signer) {
      signer := FindSigner(attempts, IsAttestationMode, signer);
    }
    var allSigners: seq<Signer> := [];
    for i := 0 to |attempts|
      invariant allSigners == AllSigners(attempts[..i])
    {
      assert attempts[..i + 1][..i] == attempts[..i];
      allSigners := allSigners + attempts[i].signers;
    }
    var signers := DedupeSigners(allSigners);
    merged := merged.(attestationType := attestationType, signer := signer, signers := signers,
                      reason := "all configured verification modes succeeded");
  }

  method VerifyAll(answers: seq<Answer>) returns (r: Verdict)
    ensures r == AllOf(answers, []) && AllComesTo(answers, r)
  {
    AllIsRight(answers);
    var attempts: seq<Observation> := [];
    for i := 0 to |answers|
      invariant AllOf(answers[i..], attempts) == AllOf(answers, [])
    {
      assert answers[i..][0] == answers[i] && answers[i..][1..] == answers[i + 1..];
      match answers[i].verdict
      case Failed(e) => return Failed(By(answers[i].name, e));
      case Observed(o) =>
        if !o.status.Verified? {
          return Observed(Fill(o));
        }
        attempts := attempts + [o];
    }
    if |attempts| == 0 {
      return Observed(NOTHING_TO_MERGE);
    }
    var merged := MergeVerifiedObservations(attempts);
    return Observed(merged);
  }
}
