/** The Kyverno policy sync: plan what to apply, update and remove, carry it out on the cluster, and converge. */
module PolicySync {
  import opened Options

  /** A policy as its YAML says; `owned` says whether it carries the ownership annotation. The namespace is empty where
      the YAML names none. */
  datatype Policy = Policy(kind: string, namespace: string, name: string, owned: bool, yaml: string)

  /** A policy object in the cluster; objects of cluster-wide kinds have the empty namespace. */
  datatype ObjectKey = ObjectKey(kind: string, namespace: string, name: string)

  type Cluster = map<ObjectKey, Policy>

  function KeyOf(p: Policy): ObjectKey {
    ObjectKey(p.kind, p.namespace, p.name)
  }

  ghost predicate WellKeyed(c: Cluster) {
    forall k :: k in c ==> KeyOf(c[k]) == k
  }

  /** Which kinds are namespaced, which kinds the sync lists, and the namespace that kubectl uses where none is
      given. */
  datatype Context = Context(namespacedKinds: set<string>, listedKinds: set<string>, namespace: string)
  {
    /** The object that `kubectl apply` writes: the YAML decides the namespace, if the kind has one. */
    function Applied(p: Policy): Policy {
      if p.kind !in namespacedKinds then p.(namespace := "")
      else if p.namespace == "" then p.(namespace := namespace)
      else p
    }

    /** The object that `kubectl delete kind name` removes: no namespace is passed. */
    function DeleteKey(kind: string, name: string): ObjectKey {
      ObjectKey(kind, if kind in namespacedKinds then namespace else "", name)
    }

    function ApplyKey(p: Policy): ObjectKey {
      KeyOf(Applied(p))
    }
  }

  /** What one kubectl call does: it succeeds, or it fails and leaves the object in some state. */
  datatype Kubectl = Success | Failure(left: Option<Policy>)

  function Leave(c: Cluster, k: ObjectKey, left: Option<Policy>): Cluster {
    match left
    case None => c - {k}
    case Some(p) => c[k := p]
  }

  // ----- Planning -----

  /** Policies by name; of several with one name the last wins. */
  function ByName(policies: seq<Policy>): (m: map<string, Policy>)
    ensures forall n :: n in m ==> m[n] in policies && m[n].name == n
    ensures forall p :: p in policies ==> p.name in m
  {
    if policies == [] then map[]
    else
      var last := policies[|policies| - 1];
      ByName(policies[..|policies| - 1])[last.name := last]
  }

  datatype Actions = Actions(toApply: seq<string>, toUpdate: seq<string>, toRemove: seq<Policy>)

  function NamesOf(policies: seq<Policy>): (r: seq<string>)
    ensures |r| == |policies| && forall i :: 0 <= i < |r| ==> r[i] == policies[i].name
  {
    seq(|policies|, i requires 0 <= i < |policies| => policies[i].name)
  }

  function NameSet(names: seq<string>): set<string> {
    set n | n in names
  }

  lemma NameSetOneMore(names: seq<string>, i: nat)
    requires i < |names|
    ensures NameSet(names[..i + 1]) == NameSet(names[..i]) + {names[i]}
  {
    assert names[..i + 1] == names[..i] + [names[i]];
  }

  ghost predicate NamedAlike(m: map<string, Policy>) {
    forall n :: n in m ==> m[n].name == n
  }

  predicate NoDuplicates<T(==)>(q: seq<T>) {
    forall i, j :: 0 <= i < j < |q| ==> q[i] != q[j]
  }

  /** A plan is right if it lists, in any order and once each, the names only expected, the names on both sides,
      and the policies only deployed. */
  ghost predicate RightPlan(a: Actions, expected: map<string, Policy>, current: map<string, Policy>) {
    && NoDuplicates(a.toApply) && NoDuplicates(a.toUpdate) && NoDuplicates(a.toRemove)
    && (forall n :: n in a.toApply <==> n in expected && n !in current)
    && (forall n :: n in a.toUpdate <==> n in expected && n in current)
    && (forall p :: p in a.toRemove <==> p.name in current && p.name !in expected && current[p.name] == p)
  }

  method CollectByName(policies: seq<Policy>) returns (m: map<string, Policy>)
    ensures m == ByName(policies)
  {
    m := map[];
    for i := 0 to |policies|
      invariant m == ByName(policies[..i])
    {
      assert policies[..i + 1][..i] == policies[..i];
      m := m[policies[i].name := policies[i]];
    }
    assert policies[..|policies|] == policies;
  }

  /** The names of the map that satisfy `keep`, in whatever order the map is walked. */
  method NamesWhere(m: map<string, Policy>, keep: string -> bool) returns (names: seq<string>)
    ensures NoDuplicates(names) && forall n :: n in names <==> n in m && keep(n)
  {
    names := [];
    var rest := m.Keys;
    while rest != {}
      invariant rest <= m.Keys && NoDuplicates(names)
      invariant forall n :: n in names <==> n in m && n !in rest && keep(n)
    {
      var name :| name in rest;
      rest := rest - {name};
      if keep(name) {
        names := names + [name];
      }
    }
  }

  lemma GoneAreRemoved(gone: seq<string>, toRemove: seq<Policy>,
                       expected: map<string, Policy>, current: map<string, Policy>)
    requires NamedAlike(current) && |toRemove| == |gone|
    requires forall n :: n in gone <==> n in current && n !in expected
    requires forall j :: 0 <= j < |gone| ==> gone[j] in current && toRemove[j] == current[gone[j]]
    ensures forall p :: p in toRemove <==> p.name in current && p.name !in expected && current[p.name] == p
  {
    forall p ensures p in toRemove <==> p.name in current && p.name !in expected && current[p.name] == p {
      if p.name in current && p.name !in expected && current[p.name] == p {
        var j :| 0 <= j < |gone| && gone[j] == p.name;
        assert toRemove[j] == p;
      }
      if p in toRemove {
        var j :| 0 <= j < |toRemove| && toRemove[j] == p;
        assert gone[j] in gone;
      }
    }
  }

  /** The deployed policies with these names, whose kinds a removal needs. */
  method FullPolicies(names: seq<string>, m: map<string, Policy>) returns (policies: seq<Policy>)
    requires NoDuplicates(names) && NamedAlike(m) && forall j :: 0 <= j < |names| ==> names[j] in m
    ensures |policies| == |names| && NoDuplicates(policies)
    ensures forall j :: 0 <= j < |names| ==> policies[j] == m[names[j]]
  {
    policies := [];
    for i := 0 to |names|
      invariant |policies| == i && forall j :: 0 <= j < i ==> policies[j] == m[names[j]]
    {
      policies := policies + [m[names[i]]];
    }
    assert forall j :: 0 <= j < |names| ==> policies[j].name == names[j];
  }

  method ComparePolicies(expected: seq<Policy>, current: seq<Policy>) returns (actions: Actions)
    ensures RightPlan(actions, ByName(expected), ByName(current))
  {
    var expectedMap := CollectByName(expected);
    var currentMap := CollectByName(current);
    var toApply := NamesWhere(expectedMap, n => n !in currentMap);
    var toUpdate := NamesWhere(expectedMap, n => n in currentMap);
    var gone := NamesWhere(currentMap, n => n !in expectedMap);
    var toRemove := FullPolicies(gone, currentMap);
    actions := Actions(toApply, toUpdate, toRemove);
    GoneAreRemoved(gone, toRemove, expectedMap, currentMap);
  }

  // ----- Carrying the plan out -----

  function Lookup(c: Cluster, k: ObjectKey): Option<Policy> {
    if k in c then Some(c[k]) else None
  }

  /** Of the objects with this name, all but possibly one are as they were. */
  ghost predicate SameButFor(before: Cluster, after: Cluster, name: string, but: Option<ObjectKey>) {
    forall k: ObjectKey :: k.name == name && Some(k) != but ==> Lookup(after, k) == Lookup(before, k)
  }

  /** The objects with this name after its action succeeded: the expected policy is in place, or the object that
      kubectl delete looks for is gone, and nothing else with this name was touched. */
  ghost predicate Settled(x: Context, before: Cluster, after: Cluster, name: string,
                          expected: map<string, Policy>, current: map<string, Policy>) {
    if name in expected then
      && SameButFor(before, after, name, Some(x.ApplyKey(expected[name])))
      && Lookup(after, x.ApplyKey(expected[name])) == Some(x.Applied(expected[name]))
    else if name in current then
      && SameButFor(before, after, name, Some(x.DeleteKey(current[name].kind, name)))
      && Lookup(before, x.DeleteKey(current[name].kind, name)).Some?
      && Lookup(after, x.DeleteKey(current[name].kind, name)) == None
    else SameButFor(before, after, name, None)
  }

  /** Progress of the plan: names in `done` are settled unless they failed, the others untouched. */
  ghost predicate Progress(x: Context, before: Cluster, now: Cluster, done: set<string>, failed: seq<string>,
                           expected: map<string, Policy>, current: map<string, Policy>) {
    && (forall n :: n in failed ==> n in done)
    && (forall n :: n !in failed ==>
          if n in done then Settled(x, before, now, n, expected, current) else SameButFor(before, now, n, None))
  }

  lemma AllDone(x: Context, before: Cluster, now: Cluster, done: set<string>, failed: seq<string>,
                expected: map<string, Policy>, current: map<string, Policy>)
    requires Progress(x, before, now, done, failed, expected, current) && expected.Keys + current.Keys <= done
    ensures forall n :: n !in failed ==> Settled(x, before, now, n, expected, current)
  {
    forall n | n !in failed ensures Settled(x, before, now, n, expected, current) {
      if n !in done {
        assert n !in expected && n !in current;
      }
    }
  }

  lemma OtherName(x: Context, before: Cluster, now: Cluster, next: Cluster, n: string, key: ObjectKey,
                  expected: map<string, Policy>, current: map<string, Policy>)
    requires NamedAlike(expected) && NamedAlike(current) && key.name != n
    requires forall k :: k != key ==> Lookup(next, k) == Lookup(now, k)
    ensures Settled(x, before, now, n, expected, current) ==> Settled(x, before, next, n, expected, current)
    ensures SameButFor(before, now, n, None) ==> SameButFor(before, next, n, None)
  {
  }

  /** What one successful call has done for its name. */
  ghost predicate Carried(x: Context, now: Cluster, next: Cluster, name: string, key: ObjectKey,
                          expected: map<string, Policy>, current: map<string, Policy>) {
    if name in expected then
      key == x.ApplyKey(expected[name]) && Lookup(next, key) == Some(x.Applied(expected[name]))
    else
      && name in current && key == x.DeleteKey(current[name].kind, name)
      && Lookup(now, key).Some? && Lookup(next, key) == None
  }

  /** Changing one object leaves the objects of all other names alone. */
  lemma ProgressOneMore(x: Context, before: Cluster, now: Cluster, next: Cluster, done: set<string>,
                        failed: seq<string>, name: string, key: ObjectKey, failedNext: seq<string>,
                        expected: map<string, Policy>, current: map<string, Policy>)
    requires Progress(x, before, now, done, failed, expected, current) && name !in done
    requires NamedAlike(expected) && NamedAlike(current)
    requires key.name == name && forall k :: k != key ==> Lookup(next, k) == Lookup(now, k)
    requires failedNext == failed + [name]
             || (failedNext == failed && Carried(x, now, next, name, key, expected, current))
    ensures Progress(x, before, next, done + {name}, failedNext, expected, current)
  {
    forall n | n !in failedNext
      ensures if n in done + {name} then Settled(x, before, next, n, expected, current)
              else SameButFor(before, next, n, None)
    {
      assert n !in failed;
      if n == name {
        assert SameButFor(before, now, n, None);
      } else {
        OtherName(x, before, now, next, n, key, expected, current);
      }
    }
  }

  lemma RemovalNamesDistinct(a: Actions, expected: map<string, Policy>, current: map<string, Policy>)
    requires RightPlan(a, expected, current)
    ensures NoDuplicates(NamesOf(a.toRemove))
  {
    var q := a.toRemove;
    forall i, j | 0 <= i < j < |q| ensures q[i].name != q[j].name {
      assert q[i] in q && q[j] in q && q[i] != q[j];
    }
  }

  /** The three loops of a right plan deal with different names. */
  lemma PhasesAreApart(a: Actions, expected: map<string, Policy>, current: map<string, Policy>)
    requires RightPlan(a, expected, current) && NamedAlike(expected) && NamedAlike(current)
    ensures NoDuplicates(NamesOf(a.toRemove))
    ensures forall n :: n in a.toApply ==> n in expected && expected[n].name == n && n !in a.toUpdate
    ensures forall n :: n in a.toUpdate ==> n in expected && expected[n].name == n && n !in a.toApply
    ensures forall p :: p in a.toRemove ==>
                          && p.name !in expected && p.name in current && current[p.name] == p
                          && p.name !in NameSet(a.toApply) + NameSet(a.toUpdate)
    ensures forall n :: n in NamesOf(a.toRemove) ==> n !in a.toApply && n !in a.toUpdate
  {
    RemovalNamesDistinct(a, expected, current);
    forall n | n in NamesOf(a.toRemove) ensures n !in expected {
      var i :| 0 <= i < |a.toRemove| && NamesOf(a.toRemove)[i] == n;
      assert a.toRemove[i] in a.toRemove;
    }
  }

  /** `cluster` stands for the cluster that kubectl changes; `kubectl(i)` is the fate of the i-th call. */
  class PolicySyncProcessor {
    const context: Context
    var cluster: Cluster
    var applied: seq<string>
    var removed: seq<string>
    var failed: seq<string>
    var errors: seq<string>
    var calls: nat

    constructor (x: Context, c: Cluster)
      ensures context == x && cluster == c
    {
      context := x;
      cluster, applied, removed, failed, errors, calls := c, [], [], [], [], 0;
    }

    /** kubectl apply: the object ends up where the YAML and kubectl's namespace put it. */
    method ApplyPolicy(p: Policy, kubectl: nat -> Kubectl) returns (ok: bool)
      modifies this`cluster, this`calls
      ensures forall k :: k != context.ApplyKey(p) ==> Lookup(cluster, k) == Lookup(old(cluster), k)
      ensures ok ==> Lookup(cluster, context.ApplyKey(p)) == Some(context.Applied(p))
      ensures ok ==>
                var namespace := if p.kind !in context.namespacedKinds then ""
                                 else if p.namespace == "" then context.namespace else p.namespace;
                var key := ObjectKey(p.kind, namespace, p.name);
                key in cluster && cluster[key] == p.(namespace := namespace)
      ensures (ok <==> kubectl(old(calls)).Success?) && calls == old(calls) + 1
      ensures !ok ==> Lookup(cluster, context.ApplyKey(p)) == kubectl(old(calls)).left
    {
      var fate := kubectl(calls);
      calls := calls + 1;
      ok := fate.Success?;
      var key := context.ApplyKey(p);
      cluster := if ok then cluster[key := context.Applied(p)] else Leave(cluster, key, fate.left);
    }

    /** kubectl delete: it fails if there is no object where it looks, and else removes that object, whoever owns it. */
    method RemovePolicy(p: Policy, kubectl: nat -> Kubectl) returns (ok: bool)
      modifies this`cluster, this`calls
      ensures forall k :: k != context.DeleteKey(p.kind, p.name) ==> Lookup(cluster, k) == Lookup(old(cluster), k)
      ensures ok ==> Lookup(old(cluster), context.DeleteKey(p.kind, p.name)).Some?
      ensures ok ==> Lookup(cluster, context.DeleteKey(p.kind, p.name)) == None
      ensures Lookup(old(cluster), context.DeleteKey(p.kind, p.name)) == None ==> !ok && cluster == old(cluster)
      ensures calls == old(calls) + 1
      ensures var key := ObjectKey(p.kind, if p.kind in context.namespacedKinds then context.namespace else "", p.name);
        && (ok <==> key in old(cluster) && kubectl(old(calls)).Success?)
        && (ok ==> key !in cluster)
        && (!ok && key in old(cluster) ==> Lookup(cluster, key) == kubectl(old(calls)).left)
    {
      var fate := kubectl(calls);
      calls := calls + 1;
      var key := context.DeleteKey(p.kind, p.name);
      if key !in cluster {
        return false;
      }
      ok := fate.Success?;
      cluster := if ok then cluster - {key} else Leave(cluster, key, fate.left);
    }

    method Fail(name: string, message: string)
      modifies this`failed, this`errors
      ensures failed == old(failed) + [name] && |errors| == |old(errors)| + 1
    {
      failed := failed + [name];
      errors := errors + [message + name];
    }

    /** One of the two loops that apply policies. */
    method ApplyAll(names: seq<string>, managed: map<string, Policy>, kubectl: nat -> Kubectl, message: string,
                    ghost before: Cluster, ghost done: set<string>, ghost current: map<string, Policy>)
      returns (succeeded: seq<string>)
      requires Progress(context, before, cluster, done, failed, managed, current) && |errors| == |failed|
      requires NamedAlike(managed) && NamedAlike(current)
      requires NoDuplicates(names) && forall n :: n in names ==> n in managed && managed[n].name == n && n !in done
      modifies this`cluster, this`calls, this`failed, this`errors
      ensures Progress(context, before, cluster, done + NameSet(names), failed, managed, current)
      ensures |errors| == |failed|
      ensures forall n :: n in succeeded <==> n in names && n !in failed
      ensures forall n :: n !in names ==> (n in failed <==> n in old(failed))
    {
      succeeded := [];
      for i := 0 to |names|
        invariant Progress(context, before, cluster, done + NameSet(names[..i]), failed, managed, current)
        invariant |errors| == |failed|
        invariant forall n :: n in succeeded <==> n in names[..i] && n !in failed
        invariant forall n :: n !in names[..i] ==> (n in failed <==> n in old(failed))
      {
        var name := names[i];
        assert name in names && name !in names[..i];
        ghost var doneNow := done + NameSet(names[..i]);
        NameSetOneMore(names, i);
        assert done + NameSet(names[..i + 1]) == doneNow + {name};
        if name in managed {
          ghost var now, failedBefore := cluster, failed;
          var ok := ApplyPolicy(managed[name], kubectl);
          if ok {
            succeeded := succeeded + [name];
          } else {
            Fail(name, message);
          }
          ProgressOneMore(context, before, now, cluster, doneNow, failedBefore, name, context.ApplyKey(managed[name]),
                          failed, managed, current);
        }
      }
      assert names[..|names|] == names;
    }

    method RemoveAll(policies: seq<Policy>, kubectl: nat -> Kubectl, ghost before: Cluster, ghost done: set<string>,
                     ghost managed: map<string, Policy>, ghost current: map<string, Policy>)
      returns (succeeded: seq<string>)
      requires Progress(context, before, cluster, done, failed, managed, current) && |errors| == |failed|
      requires NamedAlike(managed) && NamedAlike(current)
      requires NoDuplicates(NamesOf(policies))
      requires forall p :: p in policies ==>
                             p.name !in managed && p.name in current && current[p.name] == p && p.name !in done
      modifies this`cluster, this`calls, this`failed, this`errors
      ensures Progress(context, before, cluster, done + NameSet(NamesOf(policies)), failed, managed, current)
      ensures |errors| == |failed|
      ensures forall n :: n in succeeded <==> n in NamesOf(policies) && n !in failed
      ensures forall n :: n !in NamesOf(policies) ==> (n in failed <==> n in old(failed))
    {
      succeeded := [];
      ghost var names := NamesOf(policies);
      for i := 0 to |policies|
        invariant Progress(context, before, cluster, done + NameSet(names[..i]), failed, managed, current)
        invariant |errors| == |failed|
        invariant forall n :: n in succeeded <==> n in names[..i] && n !in failed
        invariant forall n :: n !in names[..i] ==> (n in failed <==> n in old(failed))
      {
        var p := policies[i];
        assert p in policies && p.name == names[i] && p.name !in names[..i];
        ghost var doneNow := done + NameSet(names[..i]);
        NameSetOneMore(names, i);
        assert done + NameSet(names[..i + 1]) == doneNow + {p.name};
        ghost var now, failedBefore := cluster, failed;
        var ok := RemovePolicy(p, kubectl);
        if ok {
          succeeded := succeeded + [p.name];
        } else {
          Fail(p.name, "Failed to remove policy ");
        }
        ProgressOneMore(context, before, now, cluster, doneNow, failedBefore, p.name, context.DeleteKey(p.kind, p.name),
                        failed, managed, current);
      }
      assert names[..|names|] == names;
    }

    method ExecuteSyncActions(actions: Actions, managed: seq<Policy>, kubectl: nat -> Kubectl,
                              ghost current: map<string, Policy>)
      requires RightPlan(actions, ByName(managed), current)
      requires NamedAlike(current)
      requires failed == [] && errors == []
      modifies this
      ensures forall n :: n !in failed ==> Settled(context, old(cluster), cluster, n, ByName(managed), current)
      ensures |errors| == |failed|
      ensures forall n :: n in applied <==> n in actions.toApply && n !in failed
      ensures forall n :: n in removed <==> n in NamesOf(actions.toRemove) && n !in failed
    {
      ghost var before := cluster;
      var byName := CollectByName(managed);
      PhasesAreApart(actions, byName, current);
      applied := ApplyAll(actions.toApply, byName, kubectl, "Failed to apply policy ", before, {}, current);
      ghost var done := {} + NameSet(actions.toApply);
      var updated := ApplyAll(actions.toUpdate, byName, kubectl, "Failed to update policy ", before, done, current);
      done := done + NameSet(actions.toUpdate);
      removed := RemoveAll(actions.toRemove, kubectl, before, done, byName, current);
      PlanCovers(actions, byName, current);
      AllDone(context, before, cluster, done + NameSet(NamesOf(actions.toRemove)), failed, byName, current);
    }

    /** Every managed policy of the kinds that the sync lists, in whatever order the API lists them. */
    method ListInsightsManagedPolicies() returns (policies: seq<Policy>)
      ensures ListsManaged(context, policies, cluster)
    {
      policies := [];
      var rest := cluster.Keys;
      while rest != {}
        invariant rest <= cluster.Keys
        invariant forall p :: p in policies <==>
                              exists k :: k in cluster && k !in rest && cluster[k] == p && IsListed(context, p)
      {
        var k :| k in rest;
        rest := rest - {k};
        ghost var listed := policies;
        if cluster[k].kind in context.listedKinds && cluster[k].owned {
          policies := policies + [cluster[k]];
          assert forall p :: p in policies <==> p in listed || p == cluster[k];
        }
      }
    }

    /** syncPoliciesInternal. The flags say whether the expected policies could be fetched and the deployed ones
        listed; `parsed` is None if the fetched text is not valid. */
    method SyncPolicies(fetched: bool, listed: bool, parsed: Option<seq<Policy>>, kubectl: nat -> Kubectl)
      returns (err: bool, success: bool)
      requires WellKeyed(cluster)
      modifies this
      ensures err <==> !fetched || !listed || parsed.None?
      ensures err ==> cluster == old(cluster) && !success && failed == [] && errors == []
      ensures |errors| == |failed| && (!err ==> (success <==> failed == []))
      ensures !err ==> forall n :: n !in failed ==>
                         (AgreesOn(context, cluster, ByName(parsed.value), n)
                          <==> Clean(context, old(cluster), ByName(parsed.value), n))
    {
      applied, removed, failed, errors, success := [], [], [], [], false;
      if !fetched || !listed {
        return true, false;
      }
      var current := ListInsightsManagedPolicies();
      if parsed.None? {
        return true, false;
      }
      ghost var before := cluster;
      var actions := ComparePolicies(parsed.value, current);
      ExecuteSyncActions(actions, parsed.value, kubectl, ByName(current));
      success := |errors| == 0;
      err := false;
      forall n | n !in failed
        ensures AgreesOn(context, cluster, ByName(parsed.value), n)
                <==> Clean(context, before, ByName(parsed.value), n)
      {
        ConvergesIff(context, before, cluster, ByName(parsed.value), current, n);
      }
    }

    /** A sync and the plan that the next one makes for the same expectation. If every name was clean and nothing
        failed, the cluster agrees with the expectation on every name; that plan removes nothing, and it applies
        exactly the policies of kinds that the sync does not list. */
    method SyncThenPlan(expected: seq<Policy>, kubectl: nat -> Kubectl) returns (next: Actions)
      requires WellKeyed(cluster) && forall n :: Clean(context, cluster, ByName(expected), n)
      modifies this
      ensures failed == [] ==> forall n :: AgreesOn(context, cluster, ByName(expected), n)
      ensures failed == [] ==> next.toRemove == []
      ensures failed == [] ==> (next.toApply == [] <==> AllListed(context, ByName(expected)))
      ensures failed == [] ==>
                forall n :: n in next.toApply <==>
                            n in ByName(expected) && ByName(expected)[n].kind !in context.listedKinds
    {
      var err, success := SyncPolicies(true, true, Some(expected), kubectl);
      var current := ListInsightsManagedPolicies();
      next := ComparePolicies(expected, current);
      if failed == [] {
        NextPlanIsQuietIff(context, cluster, ByName(expected), current, next);
      }
    }
  }

  /** Every expected or deployed name is dealt with. */
  lemma PlanCovers(a: Actions, expected: map<string, Policy>, current: map<string, Policy>)
    requires RightPlan(a, expected, current) && NamedAlike(current)
    ensures expected.Keys + current.Keys <= NameSet(a.toApply) + NameSet(a.toUpdate) + NameSet(NamesOf(a.toRemove))
  {
    forall n | n in current && n !in expected ensures n in NameSet(NamesOf(a.toRemove)) {
      assert current[n] in a.toRemove;
      var j :| 0 <= j < |a.toRemove| && a.toRemove[j] == current[n];
      assert NamesOf(a.toRemove)[j] == n;
    }
  }

  // ----- Convergence -----

  ghost predicate Managed(c: Cluster, k: ObjectKey) {
    k in c && c[k].owned
  }

  /** The sync lists a policy if it asks for its kind and finds the ownership annotation. */
  predicate IsListed(x: Context, p: Policy) {
    p.owned && p.kind in x.listedKinds
  }

  ghost predicate ListsManaged(x: Context, policies: seq<Policy>, c: Cluster) {
    forall p :: p in policies <==> exists k :: k in c && c[k] == p && IsListed(x, p)
  }

  ghost predicate AllListed(x: Context, expected: map<string, Policy>) {
    forall n :: n in expected ==> expected[n].kind in x.listedKinds
  }

  /** Under this name the cluster holds exactly the managed policy that is expected, if any. */
  ghost predicate AgreesOn(x: Context, c: Cluster, expected: map<string, Policy>, n: string) {
    && (forall k: ObjectKey :: k.name == n ==>
          (Managed(c, k) <==> n in expected && k == x.ApplyKey(expected[n])))
    && (n in expected ==> Lookup(c, x.ApplyKey(expected[n])) == Some(x.Applied(expected[n])))
  }

  /** What a name must look like beforehand: an expected policy carries the annotation and is managed nowhere but where
      kubectl apply puts it; an unexpected name is managed under listed kinds only, and nowhere but where kubectl delete
      looks for it. */
  ghost predicate Clean(x: Context, c: Cluster, expected: map<string, Policy>, n: string) {
    if n in expected then
      && expected[n].owned
      && forall k: ObjectKey :: Managed(c, k) && k.name == n ==> k == x.ApplyKey(expected[n])
    else
      forall k, l :: Managed(c, k) && Managed(c, l) && k.name == n && l.name == n ==>
                       k.kind in x.listedKinds && l == x.DeleteKey(k.kind, n)
  }

  /** A name whose actions did not fail agrees with the expectation after a sync if and only if it was clean. */
  lemma ConvergesIff(x: Context, before: Cluster, after: Cluster, expected: map<string, Policy>,
                     current: seq<Policy>, n: string)
    requires WellKeyed(before) && NamedAlike(expected) && ListsManaged(x, current, before)
    requires Settled(x, before, after, n, expected, ByName(current))
    ensures AgreesOn(x, after, expected, n) <==> Clean(x, before, expected, n)
  {
    if n in expected {
      ExpectedConvergesIff(x, before, after, expected, ByName(current), n);
    } else if n in ByName(current) {
      assert ByName(current)[n] in current;
      UnexpectedConvergesIff(x, before, after, expected, ByName(current)[n], n);
    } else {
      UnlistedConvergesIff(x, before, after, expected, current, n);
    }
  }

  lemma ListedIsDeployed(x: Context, c: Cluster, current: seq<Policy>, k: ObjectKey)
    requires WellKeyed(c) && ListsManaged(x, current, c) && Managed(c, k) && k.kind in x.listedKinds
    ensures k.name in ByName(current)
  {
    assert IsListed(x, c[k]) && c[k] in current;
  }

  /** Nothing is done for a name that is neither expected nor listed: it agrees exactly if it is not managed at all. */
  lemma UnlistedConvergesIff(x: Context, before: Cluster, after: Cluster, expected: map<string, Policy>,
                             current: seq<Policy>, n: string)
    requires WellKeyed(before) && ListsManaged(x, current, before)
    requires n !in expected && n !in ByName(current) && SameButFor(before, after, n, None)
    ensures AgreesOn(x, after, expected, n) <==> Clean(x, before, expected, n)
  {
    forall k: ObjectKey | k.name == n
      ensures Managed(after, k) <==> Managed(before, k)
      ensures Managed(before, k) ==> k.kind !in x.listedKinds
    {
      assert Lookup(after, k) == Lookup(before, k);
      if Managed(before, k) && k.kind in x.listedKinds {
        ListedIsDeployed(x, before, current, k);
        assert false;
      }
    }
  }

  lemma ExpectedConvergesIff(x: Context, before: Cluster, after: Cluster, expected: map<string, Policy>,
                             current: map<string, Policy>, n: string)
    requires n in expected && expected[n].name == n && Settled(x, before, after, n, expected, current)
    ensures AgreesOn(x, after, expected, n) <==> Clean(x, before, expected, n)
  {
    var key := x.ApplyKey(expected[n]);
    assert forall k: ObjectKey :: k.name == n && k != key ==> (Managed(after, k) <==> Managed(before, k)) by {
      forall k: ObjectKey | k.name == n && k != key ensures Managed(after, k) <==> Managed(before, k) {
        assert Lookup(after, k) == Lookup(before, k);
      }
    }
    assert Managed(after, key) <==> expected[n].owned;
  }

  /** `gone` is the listed policy whose kind and name were passed to kubectl delete. */
  lemma UnexpectedConvergesIff(x: Context, before: Cluster, after: Cluster, expected: map<string, Policy>,
                               gone: Policy, n: string)
    requires n !in expected && gone.name == n && Managed(before, KeyOf(gone)) && gone.kind in x.listedKinds
    requires SameButFor(before, after, n, Some(x.DeleteKey(gone.kind, n)))
    requires Lookup(after, x.DeleteKey(gone.kind, n)) == None
    ensures AgreesOn(x, after, expected, n) <==> Clean(x, before, expected, n)
  {
    var key := x.DeleteKey(gone.kind, n);
    forall k: ObjectKey | k.name == n && k != key ensures Managed(after, k) <==> Managed(before, k) {
      assert Lookup(after, k) == Lookup(before, k);
    }
    assert !Managed(after, key);
  }

  lemma HeadIsMember<T>(q: seq<T>)
    requires q != []
    ensures q[0] in q
  {
  }

  lemma NoMembers<T(!new)>(q: seq<T>)
    requires forall x :: x !in q
    ensures q == []
  {
    if q != [] {
      HeadIsMember(q);
      assert false;
    }
  }

  /** Once every name agrees, the next sync plans to remove nothing, and to apply exactly the expected policies of kinds
      that it does not list. So it is quiet if and only if it lists all expected kinds. */
  lemma NextPlanIsQuietIff(x: Context, c: Cluster, expected: map<string, Policy>, current: seq<Policy>, next: Actions)
    requires forall n :: AgreesOn(x, c, expected, n)
    requires NamedAlike(expected) && ListsManaged(x, current, c) && RightPlan(next, expected, ByName(current))
    ensures next.toRemove == []
    ensures forall n :: n in next.toApply <==> n in expected && expected[n].kind !in x.listedKinds
    ensures next.toApply == [] <==> AllListed(x, expected)
  {
    forall n | n in expected ensures n in ByName(current) <==> expected[n].kind in x.listedKinds {
      DeployedIffListed(x, c, expected, current, n);
    }
    forall p ensures p !in next.toRemove {
      if p.name in ByName(current) && p.name !in expected && ByName(current)[p.name] == p {
        assert p in current;
        var k :| k in c && c[k] == p && IsListed(x, p);
        assert AgreesOn(x, c, expected, k.name) && Managed(c, k);
      }
    }
    NoMembers(next.toRemove);
    if AllListed(x, expected) {
      NoMembers(next.toApply);
    } else {
      var n :| n in expected && expected[n].kind !in x.listedKinds;
      assert n in next.toApply;
    }
  }

  lemma DeployedIffListed(x: Context, c: Cluster, expected: map<string, Policy>, current: seq<Policy>, n: string)
    requires forall m :: AgreesOn(x, c, expected, m)
    requires NamedAlike(expected) && ListsManaged(x, current, c) && n in expected
    ensures n in ByName(current) <==> expected[n].kind in x.listedKinds
  {
    var key := x.ApplyKey(expected[n]);
    assert AgreesOn(x, c, expected, n) && Managed(c, key) && c[key] == x.Applied(expected[n]);
    if expected[n].kind in x.listedKinds {
      assert IsListed(x, c[key]) && c[key] in current && c[key].name in ByName(current);
    } else if n in ByName(current) {
      var p := ByName(current)[n];
      assert p in current;
      var k :| k in c && c[k] == p && IsListed(x, p);
      assert AgreesOn(x, c, expected, k.name) && Managed(c, k);
      assert false;
    }
  }

  /** A policy whose kind changed is an unclean name: the sync succeeds and leaves the old object managed. */
  lemma KindChangeLeavesOldObject()
    ensures var x := Context({}, {"ClusterPolicy", "ValidatingPolicy"}, "default");
      var deployed := Policy("ClusterPolicy", "", "p", true, "v1");
      var wanted := Policy("ValidatingPolicy", "", "p", true, "v2");
      var before: Cluster := map[KeyOf(deployed) := deployed];
      var after: Cluster := before[KeyOf(wanted) := wanted];
      var expected := map["p" := wanted];
      && Settled(x, before, after, "p", expected, map["p" := deployed])
      && !Clean(x, before, expected, "p") && !AgreesOn(x, after, expected, "p")
  {
    var x := Context({}, {"ClusterPolicy", "ValidatingPolicy"}, "default");
    var deployed := Policy("ClusterPolicy", "", "p", true, "v1");
    var wanted := Policy("ValidatingPolicy", "", "p", true, "v2");
    var before: Cluster := map[KeyOf(deployed) := deployed];
    assert "ClusterPolicy"[0] != "ValidatingPolicy"[0];
    assert KeyOf(deployed) != KeyOf(wanted) && x.ApplyKey(wanted) == KeyOf(wanted);
    assert Managed(before, KeyOf(deployed)) && Managed(before[KeyOf(wanted) := wanted], KeyOf(deployed));
  }

  /** A policy of a namespaced kind outside kubectl's namespace is an unclean name too: the delete that the sync reports
      as done removed an object of that name that it does not own, and the managed one stays. */
  lemma DeleteLooksInOwnNamespace()
    ensures var x := Context({"Policy"}, {"Policy"}, "default");
      var deployed, other := Policy("Policy", "team-a", "p", true, "v1"), Policy("Policy", "default", "p", false, "v2");
      var before: Cluster := map[KeyOf(deployed) := deployed, KeyOf(other) := other];
      var after: Cluster := before - {x.DeleteKey(deployed.kind, deployed.name)};
      && WellKeyed(before) && ListsManaged(x, [deployed], before)
      && Settled(x, before, after, "p", map[], ByName([deployed]))
      && !Clean(x, before, map[], "p") && !AgreesOn(x, after, map[], "p")
      && KeyOf(other) !in after && Managed(after, KeyOf(deployed)) && ListsManaged(x, [deployed], after)
  {
    var x := Context({"Policy"}, {"Policy"}, "default");
    var deployed, other := Policy("Policy", "team-a", "p", true, "v1"), Policy("Policy", "default", "p", false, "v2");
    var before: Cluster := map[KeyOf(deployed) := deployed, KeyOf(other) := other];
    var after: Cluster := before - {x.DeleteKey(deployed.kind, deployed.name)};
    assert "team-a"[0] != "default"[0];
    assert KeyOf(deployed) != KeyOf(other) && x.DeleteKey("Policy", "p") == KeyOf(other);
    assert [deployed][..0] == [] && ByName([deployed]) == map["p" := deployed];
    assert Managed(before, KeyOf(deployed)) && Managed(after, KeyOf(deployed));
    assert before[KeyOf(deployed)] == deployed && after[KeyOf(deployed)] == deployed;
  }

  /** A managed policy of a kind that the sync does not list is never removed: it is an unclean name, and the plan for
      it is empty. */
  lemma UnlistedIsNotRemoved()
    ensures var x := Context({"CleanupPolicy"}, {"ClusterCleanupPolicy"}, "default");
      var deployed := Policy("CleanupPolicy", "default", "p", true, "v1");
      var c: Cluster := map[KeyOf(deployed) := deployed];
      && WellKeyed(c) && ListsManaged(x, [], c) && RightPlan(Actions([], [], []), map[], ByName([]))
      && !Clean(x, c, map[], "p") && !AgreesOn(x, c, map[], "p")
  {
    var x := Context({"CleanupPolicy"}, {"ClusterCleanupPolicy"}, "default");
    var deployed := Policy("CleanupPolicy", "default", "p", true, "v1");
    var c: Cluster := map[KeyOf(deployed) := deployed];
    assert |"CleanupPolicy"| != |"ClusterCleanupPolicy"|;
    assert Managed(c, KeyOf(deployed));
    forall k | k in c ensures !IsListed(x, c[k]) {
      assert c[k] == deployed;
    }
  }

  /** An expected one converges and is planned as new by every later sync. */
  lemma UnlistedIsAlwaysNew()
    ensures var x := Context({"CleanupPolicy"}, {"ClusterCleanupPolicy"}, "default");
      var wanted := Policy("CleanupPolicy", "", "p", true, "v1");
      var expected, after: Cluster := map["p" := wanted], map[x.ApplyKey(wanted) := x.Applied(wanted)];
      && Settled(x, map[], after, "p", expected, map[]) && Clean(x, map[], expected, "p")
      && AgreesOn(x, after, expected, "p") && ListsManaged(x, [], after)
      && RightPlan(Actions(["p"], [], []), expected, ByName([]))
  {
    var x := Context({"CleanupPolicy"}, {"ClusterCleanupPolicy"}, "default");
    var wanted := Policy("CleanupPolicy", "", "p", true, "v1");
    var expected, after: Cluster := map["p" := wanted], map[x.ApplyKey(wanted) := x.Applied(wanted)];
    assert |"CleanupPolicy"| != |"ClusterCleanupPolicy"|;
    forall k | k in after ensures !IsListed(x, after[k]) {
      assert after[k] == x.Applied(wanted);
    }
  }
}
