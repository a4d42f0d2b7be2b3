/** The right-sizer: out-of-memory kills create report items and raise memory limits, while another goroutine
    ages items out between the moment an item is created and the moment it is stored. */
module RightSizerController {
  import opened Options
  import opened RightSizerReport

  /** Multipliers are in hundredths: they are printed with two decimals before they are used. */
  datatype Config = Config(enabled: bool, updateNamespaces: seq<string>, minimumOOMs: int,
                           increment: int, maximum: int, tooOldAge: int)
  {
    ghost predicate Valid() { increment > 0 && maximum > 0 }
  }

  /** The exact decimal product of a quantity and a multiplier. */
  function MultiplyQuantity(q: real, hundredths: int): real {
    q * (hundredths as real) / 100.0
  }

  function MaxAllowed(item: Item, c: Config): real {
    MultiplyQuantity(item.startingMemory, c.maximum)
  }

  /** The raised limit, or zero if it would exceed the allowed maximum. */
  function IncrementMemory(item: Item, current: real, c: Config): real {
    var raised := MultiplyQuantity(current, c.increment);
    if raised > MaxAllowed(item, c) then 0.0 else raised
  }

  predicate Precheck(c: Config, namespace: string, ooms: int) {
    && c.enabled
    && (|c.updateNamespaces| > 0 ==> namespace in c.updateNamespaces)
    && (c.minimumOOMs > 0 ==> ooms >= c.minimumOOMs)
  }

  /** A removal under way: the length it read, and what it removes. */
  datatype Removal = Removal(length: nat, removals: seq<Item>)

  /** `limits` is what the pod carries that is killed next. `stores` counts the stores of an item since it was
      inserted, `patches` the patches since its starting memory was recorded. `held` is the item that the
      controller has created and not stored yet, `removing` a removal that has read the length of the report
      and not taken the lock yet. */
  datatype State = State(items: seq<Item>, limits: map<Key, real>, held: Option<Item>, removing: Option<Removal>,
                         stores: map<Key, nat>, patches: map<Key, nat>)

  function LimitOf(s: State, k: Key): real {
    if k in s.limits then s.limits[k] else 0.0
  }

  function Stores(s: State, k: Key): nat {
    if k in s.stores then s.stores[k] else 0
  }

  function Patches(s: State, k: Key): nat {
    if k in s.patches then s.patches[k] else 0
  }

  /** A key that a container can have: containers have names. */
  predicate IsContainer(k: Key) {
    k.container != ""
  }

  predicate Tracked(s: State, k: Key) {
    Named(s.items, k) || (s.held.Some? && s.held.value.key == k)
  }

  /** How a patch request fares. The API server may store a larger limit than it was sent; `found` says whether the
      container is found in the answer. */
  datatype Patch = Refused | Accepted(roundedBy: real, found: bool, generation: int)

  datatype Action =
    | Oom(key: Key, generation: int, now: int, patch: Patch)
    | Store(now: int)
    | AgeOut(now: int)                      // the other goroutine
    | ReadLength(removals: seq<Item>)       // RemoveItems before the lock
    | Remove                                // RemoveItems under the lock
    | Resize(key: Key, limit: real)         // somebody else changes a limit

  predicate Enabled(s: State, a: Action) {
    match a
    case Oom(key, _, _, patch) =>
      && s.held.None? && s.removing.None? && IsContainer(key)
      && (patch.Accepted? ==> patch.roundedBy >= 0.0)
    case Store(_) => s.held.Some?
    case AgeOut(_) => true
    case ReadLength(removals) => s.held.None? && s.removing.None? && removals != []
    case Remove =>
      s.removing.Some? && !Crashes(Padded(s.items, s.removing.value.length), s.removing.value.removals)
    case Resize(_, limit) => limit >= 0.0
  }

  /** The limit a kill raises to: zero means no patch is attempted. */
  function RaisedLimit(c: Config, s: State, item: Item): real {
    if Precheck(c, item.key.namespace, item.numOOMs) then IncrementMemory(item, LimitOf(s, item.key), c) else 0.0
  }

  /** The item created for a kill. */
  function KilledItem(s: State, a: Action): Item
    requires a.Oom?
  {
    Created(s.items, a.key, a.generation, LimitOf(s, a.key), a.now)
  }

  function Entry(s: State, k: Key): Item
    requires Named(s.items, k)
  {
    s.items[IndexOf(s.items, k)]
  }

  predicate IsPatched(c: Config, s: State, a: Action) {
    a.Oom? && a.patch.Accepted? && RaisedLimit(c, s, KilledItem(s, a)) != 0.0
  }

  function Killed(c: Config, s: State, a: Action): State
    requires a.Oom?
  {
    var item := KilledItem(s, a);
    var seen := if Named(s.items, a.key) then Patches(s, a.key) else 0;
    if IsPatched(c, s, a) then
      var sent := RaisedLimit(c, s, item);
      var stored := sent + a.patch.roundedBy;
      s.(held := Some(item.(generation := a.patch.generation, endingMemory := if a.patch.found then stored else sent)),
         limits := s.limits[a.key := stored], patches := s.patches[a.key := seen + 1])
    else s.(held := Some(item), patches := s.patches[a.key := seen])
  }

  function StoredHeld(s: State, now: int): State
    requires s.held.Some?
  {
    var item := s.held.value;
    s.(items := Stored(s.items, item, now), held := None,
       stores := s.stores[item.key := if Named(s.items, item.key) then Stores(s, item.key) + 1 else 1])
  }

  function Removed(s: State): State
    requires s.removing.Some?
  {
    s.(items := AfterRemoval(s.items, s.removing.value.length, s.removing.value.removals), removing := None)
  }

  function Apply(c: Config, s: State, a: Action): State
    requires Enabled(s, a)
  {
    match a
    case Oom(_, _, _, _) => Killed(c, s, a)
    case Store(now) => StoredHeld(s, now)
    case AgeOut(now) => s.(items := Aged(s.items, c.tooOldAge, now))
    case ReadLength(removals) => s.(removing := Some(Removal(|s.items|, removals)))
    case Remove => Removed(s)
    case Resize(key, limit) => s.(limits := s.limits[key := limit])
  }

  // ----- Invariant -----

  function Power(r: real, n: nat): real {
    if n == 0 then 1.0 else Power(r, n - 1) * r
  }

  function Rate(c: Config): real {
    c.increment as real / 100.0
  }

  /** A quantity raised `n` times. */
  function Grown(start: real, c: Config, n: nat): real {
    if n == 0 then start else MultiplyQuantity(Grown(start, c, n - 1), c.increment)
  }

  /** The limit in the cluster is at least the starting memory raised once per patch. */
  ghost predicate Raised(c: Config, s: State, item: Item) {
    LimitOf(s, item.key) >= Grown(item.startingMemory, c, Patches(s, item.key))
  }

  ghost predicate LimitsOk(c: Config, s: State) {
    && (forall i :: 0 <= i < |s.items| && IsContainer(s.items[i].key) ==> Raised(c, s, s.items[i]))
    && (s.held.Some? ==> Raised(c, s, s.held.value))
  }

  /** `n` patches fit under the maximum. */
  ghost predicate Fits(c: Config, n: nat) {
    n > 0 ==> Power(Rate(c), n) <= c.maximum as real / 100.0
  }

  ghost predicate PatchesFit(c: Config, s: State) {
    forall k :: Fits(c, Patches(s, k))
  }

  /** Every container has at most one item. Whatever else is in the report is a blank item. */
  ghost predicate UniqueContainers(items: seq<Item>) {
    && (forall i :: 0 <= i < |items| ==> IsContainer(items[i].key) || items[i] == BLANK)
    && (forall i, j :: 0 <= i < j < |items| && IsContainer(items[i].key) ==> items[i].key != items[j].key)
  }

  ghost predicate OomsCounted(s: State) {
    && (forall i :: 0 <= i < |s.items| && IsContainer(s.items[i].key) ==>
          s.items[i].numOOMs == Stores(s, s.items[i].key))
    && (s.held.Some? ==>
          var i := IndexOf(s.items, s.held.value.key);
          i < |s.items| ==>
            && s.held.value.numOOMs == s.items[i].numOOMs + 1
            && s.held.value.startingMemory == s.items[i].startingMemory)
  }

  /** While a removal is under way the report only shrinks. */
  ghost predicate InTurn(s: State) {
    && (s.held.Some? ==> IsContainer(s.held.value.key) && s.removing.None?)
    && (s.removing.Some? ==> |s.items| <= s.removing.value.length)
  }

  ghost predicate Inv(s: State) {
    UniqueContainers(s.items) && OomsCounted(s) && InTurn(s)
  }

  ghost predicate LimitInv(c: Config, s: State) {
    (forall k :: LimitOf(s, k) >= 0.0) && LimitsOk(c, s) && PatchesFit(c, s)
  }

  function Init(): State {
    State([], map[], None, None, map[], map[])
  }

  // ----- Containers stay unique and kills are counted -----

  lemma ShrinkKeepsFound(r: seq<Item>, q: seq<Item>, at: seq<nat>, k: Key)
    requires UniqueContainers(q) && Picks(r, q, at) && Named(r, k) && IsContainer(k)
    ensures Named(q, k) && r[IndexOf(r, k)] == q[IndexOf(q, k)]
  {
    var i := at[IndexOf(r, k)];
    assert q[i].key == k;
    assert IndexOf(q, k) == i;
  }

  lemma ShrinkKeepsContainers(r: seq<Item>, q: seq<Item>, at: seq<nat>)
    requires UniqueContainers(q) && Picks(r, q, at)
    ensures UniqueContainers(r)
  {
  }

  /** Any order-preserving removal keeps containers unique and counts right. */
  lemma ShrinkKeepsCounts(s: State, r: seq<Item>, at: seq<nat>)
    requires Inv(s) && Picks(r, s.items, at) && |r| <= |s.items|
    ensures Inv(s.(items := r))
  {
    ShrinkKeepsContainers(r, s.items, at);
    if s.held.Some? && Named(r, s.held.value.key) {
      ShrinkKeepsFound(r, s.items, at, s.held.value.key);
    }
  }

  /** Blank items behind the report hide no container. */
  lemma FoundBeforeBlanks(items: seq<Item>, n: nat, k: Key)
    requires IsContainer(k)
    ensures Named(items + Blanks(n), k) <==> Named(items, k)
    ensures Named(items, k) ==> IndexOf(items + Blanks(n), k) == IndexOf(items, k)
  {
    var q := items + Blanks(n);
    assert forall i :: 0 <= i < |items| ==> q[i] == items[i];
    assert forall i :: |items| <= i < |q| ==> q[i] == BLANK;
  }

  lemma BlanksKeepContainers(items: seq<Item>, n: nat)
    requires UniqueContainers(items)
    ensures UniqueContainers(items + Blanks(n))
  {
    var q := items + Blanks(n);
    assert forall i :: |items| <= i < |q| ==> q[i] == BLANK;
  }

  /** The report after a removal: what an order-preserving removal leaves, and perhaps blank items behind it. */
  lemma RemovedSplits(s: State) returns (front: seq<Item>, at: seq<nat>, n: nat)
    requires Inv(s) && s.removing.Some?
    ensures Removed(s).items == front + Blanks(n)
    ensures Picks(front, s.items, at) && |front| <= |s.items|
    ensures n > 0 <==> Disturbed(s)
  {
    var m, removals := s.removing.value.length, s.removing.value.removals;
    RemovalResult(s.items, m, removals);
    front := Without(s.items, removals);
    at := FilteredPicks(s.items, Unnamed(s.items, removals), |s.items|);
    n := if Disturbed(s) then m - |s.items| else 0;
    assert front + [] == front;
    assert Blanks(0) == [];
  }

  lemma RemoveKeepsCounts(s: State)
    requires Inv(s) && s.removing.Some?
    ensures Inv(Removed(s))
  {
    var front, at, n := RemovedSplits(s);
    ShrinkKeepsCounts(s, front, at);
    BlanksKeepContainers(front, n);
    var t := Removed(s);
    forall i | 0 <= i < |t.items| && IsContainer(t.items[i].key)
      ensures t.items[i].numOOMs == Stores(t, t.items[i].key)
    {
      assert i < |front| && t.items[i] == front[i];
    }
  }

  lemma StoreKeepsContainers(s: State, now: int)
    requires Inv(s) && s.held.Some?
    ensures UniqueContainers(StoredHeld(s, now).items)
  {
    var k := s.held.value.key;
    var i := IndexOf(s.items, k);
    assert i < |s.items| ==> s.items[i].key == k;
  }

  lemma StoreKeepsCounts(s: State, now: int)
    requires Inv(s) && s.held.Some?
    ensures Inv(StoredHeld(s, now))
  {
    StoreKeepsContainers(s, now);
    var k := s.held.value.key;
    var t := StoredHeld(s, now);
    forall i | 0 <= i < |t.items| && IsContainer(t.items[i].key)
      ensures t.items[i].numOOMs == Stores(t, t.items[i].key)
    {
      if i < |s.items| && t.items[i].key != k {
        assert t.items[i] == s.items[i];
      }
    }
  }

  lemma OomKeepsCounts(c: Config, s: State, a: Action)
    requires Inv(s) && a.Oom? && Enabled(s, a)
    ensures Inv(Killed(c, s, a)) && Killed(c, s, a).items == s.items
  {
    var t := Killed(c, s, a);
    assert t.held.value.numOOMs == KilledItem(s, a).numOOMs && t.held.value.key == a.key;
  }

  lemma StepKeepsCounts(c: Config, s: State, a: Action)
    requires Inv(s) && Enabled(s, a)
    ensures Inv(Apply(c, s, a))
  {
    match a
    case Oom(_, _, _, _) => OomKeepsCounts(c, s, a);
    case Store(now) => StoreKeepsCounts(s, now);
    case AgeOut(now) =>
      var at := FilteredPicks(s.items, Young(s.items, c.tooOldAge, now), |s.items|);
      ShrinkKeepsCounts(s, Aged(s.items, c.tooOldAge, now), at);
    case ReadLength(_) =>
    case Remove => RemoveKeepsCounts(s);
    case Resize(_, _) =>
  }

  // ----- Blank items -----

  /** The removal that is about to take the lock will leave blank items. */
  predicate Disturbed(s: State) {
    s.removing.Some? && LeavesBlanks(s.items, s.removing.value.length, s.removing.value.removals)
  }

  /** It leaves exactly one, and there is none yet. */
  predicate OnlyOneBlank(s: State) {
    s.removing.Some? && s.removing.value.length == |s.items| + 1 && !Named(s.items, BLANK_KEY)
  }

  ghost predicate OnlyContainers(items: seq<Item>) {
    forall i :: 0 <= i < |items| ==> IsContainer(items[i].key)
  }

  lemma StoreKeepsUnique(s: State, now: int)
    requires Inv(s) && s.held.Some? && UniqueKeys(s.items)
    ensures UniqueKeys(StoredHeld(s, now).items)
  {
    var i := IndexOf(s.items, s.held.value.key);
    assert i < |s.items| ==> s.items[i].key == s.held.value.key;
  }

  /** One step keeps all keys unique if and only if it is no removal that leaves blank items, but for a single one. */
  lemma StepKeepsUniqueIff(c: Config, s: State, a: Action)
    requires Inv(s) && Enabled(s, a) && UniqueKeys(s.items)
    ensures UniqueKeys(Apply(c, s, a).items) <==> (a.Remove? && Disturbed(s) ==> OnlyOneBlank(s))
  {
    match a
    case Oom(_, _, _, _) =>
    case Store(now) => StoreKeepsUnique(s, now);
    case AgeOut(now) =>
      var at := FilteredPicks(s.items, Young(s.items, c.tooOldAge, now), |s.items|);
      PicksKeepUnique(Aged(s.items, c.tooOldAge, now), s.items, at);
    case ReadLength(_) =>
    case Remove => RemovalKeepsUniqueIff(s.items, s.removing.value.length, s.removing.value.removals);
    case Resize(_, _) =>
  }

  /** One step keeps the report free of blank items if and only if it is no removal that leaves some. */
  lemma StepKeepsContainersIff(c: Config, s: State, a: Action)
    requires Inv(s) && Enabled(s, a) && OnlyContainers(s.items)
    ensures OnlyContainers(Apply(c, s, a).items) <==> !(a.Remove? && Disturbed(s))
  {
    match a
    case Oom(_, _, _, _) =>
    case Store(now) =>
    case AgeOut(now) =>
      var at := FilteredPicks(s.items, Young(s.items, c.tooOldAge, now), |s.items|);
    case ReadLength(_) =>
    case Remove =>
      var front, at, n := RemovedSplits(s);
      if n > 0 {
        assert Removed(s).items[|front|] == BLANK;
      } else {
        assert front + Blanks(0) == front;
      }
    case Resize(_, _) =>
  }

  // ----- Limits are the starting memory, raised -----

  lemma {:induction false} PowerPositive(r: real, n: nat)
    requires r > 0.0
    ensures Power(r, n) > 0.0
  {
    if n > 0 {
      PowerPositive(r, n - 1);
    }
  }

  lemma MultiplyIsRate(q: real, c: Config)
    ensures MultiplyQuantity(q, c.increment) == q * Rate(c)
    ensures MultiplyQuantity(q, c.maximum) == q * (c.maximum as real / 100.0)
  {
  }

  lemma Regroup(a: real, b: real, d: real)
    ensures a * b * d == a * (b * d)
  {
  }

  lemma {:induction false} GrownIsPower(start: real, c: Config, n: nat)
    ensures Grown(start, c, n) == start * Power(Rate(c), n)
  {
    if n > 0 {
      GrownIsPower(start, c, n - 1);
      MultiplyIsRate(Grown(start, c, n - 1), c);
      Regroup(start, Power(Rate(c), n - 1), Rate(c));
    }
  }

  lemma CancelFactor(x: real, y: real, m: real)
    requires x > 0.0 && x * y <= x * m
    ensures y <= m
  {
  }

  lemma PositiveFactor(x: real, y: real)
    requires x * y > 0.0 && y > 0.0
    ensures x > 0.0
  {
  }

  lemma PositiveProduct(q: real, c: Config)
    requires q >= 0.0 && c.Valid() && MultiplyQuantity(q, c.increment) != 0.0
    ensures MultiplyQuantity(q, c.increment) > 0.0
  {
  }

  lemma GrownIsMonotone(start: real, c: Config, n: nat, limit: real)
    requires c.Valid() && limit >= Grown(start, c, n)
    ensures MultiplyQuantity(limit, c.increment) >= Grown(start, c, n + 1)
  {
    MultiplyKeepsOrder(Grown(start, c, n), limit, c.increment);
  }

  lemma MultiplyKeepsOrder(a: real, b: real, hundredths: int)
    requires a <= b && hundredths > 0
    ensures MultiplyQuantity(a, hundredths) <= MultiplyQuantity(b, hundredths)
  {
    var d := b - a;
    assert d * (hundredths as real) >= 0.0;
    assert b * (hundredths as real) == a * (hundredths as real) + d * (hundredths as real);
  }

  /** A patch that goes ahead raises once more, stays under the maximum, and so fits. */
  lemma OnePatchMore(c: Config, s: State, item: Item, seen: nat)
    requires c.Valid() && LimitOf(s, item.key) >= 0.0
    requires LimitOf(s, item.key) >= Grown(item.startingMemory, c, seen)
    requires RaisedLimit(c, s, item) != 0.0
    ensures RaisedLimit(c, s, item) >= Grown(item.startingMemory, c, seen + 1)
    ensures 0.0 < RaisedLimit(c, s, item) <= MaxAllowed(item, c)
    ensures Fits(c, seen + 1)
  {
    var start, r, max := item.startingMemory, Rate(c), c.maximum as real / 100.0;
    PositiveProduct(LimitOf(s, item.key), c);
    GrownIsMonotone(start, c, seen, LimitOf(s, item.key));
    GrownIsPower(start, c, seen + 1);
    MultiplyIsRate(start, c);
    PositiveFactor(start, max);
    CancelFactor(start, Power(r, seen + 1), max);
  }

  lemma OomKeepsPatches(c: Config, s: State, a: Action)
    requires c.Valid() && Inv(s) && LimitInv(c, s) && a.Oom? && Enabled(s, a)
    ensures PatchesFit(c, Killed(c, s, a)) && forall k :: LimitOf(Killed(c, s, a), k) >= 0.0
    ensures Raised(c, Killed(c, s, a), Killed(c, s, a).held.value)
  {
    var item := KilledItem(s, a);
    var seen := if Named(s.items, a.key) then Patches(s, a.key) else 0;
    var t := Killed(c, s, a);
    assert LimitOf(s, a.key) >= Grown(item.startingMemory, c, seen);
    if IsPatched(c, s, a) {
      OnePatchMore(c, s, item, seen);
    }
    forall k ensures LimitOf(t, k) >= 0.0 {
      assert k != a.key ==> LimitOf(t, k) == LimitOf(s, k);
    }
    forall k ensures Fits(c, Patches(t, k)) {
      if k != a.key {
        assert Patches(t, k) == Patches(s, k);
      }
    }
  }

  lemma OomKeepsLimits(c: Config, s: State, a: Action)
    requires c.Valid() && Inv(s) && LimitInv(c, s) && a.Oom? && Enabled(s, a)
    ensures LimitInv(c, Killed(c, s, a))
  {
    var t := Killed(c, s, a);
    OomKeepsPatches(c, s, a);
    forall i | 0 <= i < |t.items| && IsContainer(t.items[i].key) ensures Raised(c, t, t.items[i]) {
      assert t.items[i] == s.items[i];
      if t.items[i].key == a.key {
        assert i == IndexOf(s.items, a.key);
      } else {
        assert Raised(c, s, s.items[i]);
      }
    }
  }

  lemma StoreKeepsLimits(c: Config, s: State, now: int)
    requires Inv(s) && LimitInv(c, s) && s.held.Some?
    ensures LimitInv(c, StoredHeld(s, now))
  {
    var t := StoredHeld(s, now);
    assert forall k :: LimitOf(t, k) == LimitOf(s, k) && Patches(t, k) == Patches(s, k);
    forall i | 0 <= i < |t.items| && IsContainer(t.items[i].key) ensures Raised(c, t, t.items[i]) {
      if t.items[i].key == s.held.value.key {
        assert Raised(c, s, s.held.value);
        if i < |s.items| {
          assert i == IndexOf(s.items, s.held.value.key);
        }
      } else {
        assert t.items[i] == s.items[i] && Raised(c, s, s.items[i]);
      }
    }
  }

  lemma ShrinkKeepsLimits(c: Config, s: State, t: State, at: seq<nat>, n: nat)
    requires LimitInv(c, s) && t.limits == s.limits && t.patches == s.patches && t.held == s.held
    requires n <= |t.items| && Picks(t.items[..n], s.items, at)
    requires forall i :: n <= i < |t.items| ==> !IsContainer(t.items[i].key)
    ensures LimitInv(c, t)
  {
    assert forall k :: LimitOf(t, k) == LimitOf(s, k) && Patches(t, k) == Patches(s, k);
    forall i | 0 <= i < |t.items| && IsContainer(t.items[i].key) ensures Raised(c, t, t.items[i]) {
      assert t.items[i] == t.items[..n][i] && Raised(c, s, s.items[at[i]]);
    }
  }

  /** A change of a limit by somebody else that lowers no tracked limit. */
  predicate Upward(s: State, a: Action) {
    a.Resize? && Tracked(s, a.key) ==> a.limit >= LimitOf(s, a.key)
  }

  lemma ResizeKeepsLimits(c: Config, s: State, a: Action)
    requires Inv(s) && LimitInv(c, s) && a.Resize? && Enabled(s, a) && Upward(s, a)
    ensures LimitInv(c, Apply(c, s, a))
  {
    var t := Apply(c, s, a);
    assert forall k :: Patches(t, k) == Patches(s, k);
    forall i | 0 <= i < |t.items| && IsContainer(t.items[i].key) ensures Raised(c, t, t.items[i]) {
      assert Raised(c, s, s.items[i]);
    }
    forall k ensures LimitOf(t, k) >= 0.0 {
      assert k != a.key ==> LimitOf(t, k) == LimitOf(s, k);
    }
  }

  lemma StepKeepsLimits(c: Config, s: State, a: Action)
    requires c.Valid() && Inv(s) && LimitInv(c, s) && Enabled(s, a) && Upward(s, a)
    ensures LimitInv(c, Apply(c, s, a))
  {
    var t := Apply(c, s, a);
    match a
    case Oom(_, _, _, _) => OomKeepsLimits(c, s, a);
    case Store(now) => StoreKeepsLimits(c, s, now);
    case AgeOut(now) =>
      var at := FilteredPicks(s.items, Young(s.items, c.tooOldAge, now), |s.items|);
      assert t.items[..|t.items|] == t.items;
      ShrinkKeepsLimits(c, s, t, at, |t.items|);
    case ReadLength(_) =>
      SameItemsKeepLimits(c, s, t);
    case Remove =>
      var front, at, n := RemovedSplits(s);
      assert t.items[..|front|] == front;
      ShrinkKeepsLimits(c, s, t, at, |front|);
    case Resize(_, _) => ResizeKeepsLimits(c, s, a);
  }

  lemma SameItemsKeepLimits(c: Config, s: State, t: State)
    requires LimitInv(c, s) && t == s.(removing := t.removing)
    ensures LimitInv(c, t)
  {
    assert forall k :: LimitOf(t, k) == LimitOf(s, k) && Patches(t, k) == Patches(s, k);
    forall i | 0 <= i < |t.items| && IsContainer(t.items[i].key) ensures Raised(c, t, t.items[i]) {
      assert Raised(c, s, s.items[i]);
    }
  }

  // ----- Whole runs -----

  ghost predicate IsRun(c: Config, run: seq<State>, acts: seq<Action>) {
    && |run| == |acts| + 1
    && run[0] == Init()
    && forall i :: 0 <= i < |acts| ==> Enabled(run[i], acts[i]) && run[i + 1] == Apply(c, run[i], acts[i])
  }

  lemma {:induction false} InvAlongRun(c: Config, run: seq<State>, acts: seq<Action>, k: nat)
    requires IsRun(c, run, acts) && k < |run|
    ensures Inv(run[k])
  {
    if k > 0 {
      InvAlongRun(c, run, acts, k - 1);
      StepKeepsCounts(c, run[k - 1], acts[k - 1]);
    }
  }

  /** In every run: all keys are unique throughout if and only if no removal leaves blank items, other than a first
      single one. */
  lemma KeysStayUniqueIff(c: Config, run: seq<State>, acts: seq<Action>)
    requires IsRun(c, run, acts)
    ensures (forall i :: 0 <= i < |run| ==> UniqueKeys(run[i].items)) <==>
              (forall i :: 0 <= i < |acts| && acts[i].Remove? && Disturbed(run[i]) ==> OnlyOneBlank(run[i]))
  {
    if forall i :: 0 <= i < |acts| && acts[i].Remove? && Disturbed(run[i]) ==> OnlyOneBlank(run[i]) {
      for i := 0 to |acts|
        invariant forall j :: 0 <= j <= i ==> UniqueKeys(run[j].items)
      {
        InvAlongRun(c, run, acts, i);
        StepKeepsUniqueIff(c, run[i], acts[i]);
      }
    }
    if forall i :: 0 <= i < |run| ==> UniqueKeys(run[i].items) {
      forall i | 0 <= i < |acts| && acts[i].Remove? && Disturbed(run[i]) ensures OnlyOneBlank(run[i]) {
        InvAlongRun(c, run, acts, i);
        StepKeepsUniqueIff(c, run[i], acts[i]);
        assert UniqueKeys(run[i + 1].items);
      }
    }
  }

  /** In every run: every item in the report is one that was stored for a container, throughout, if and only if no
      removal leaves blank items. */
  lemma ReportStaysCleanIff(c: Config, run: seq<State>, acts: seq<Action>)
    requires IsRun(c, run, acts)
    ensures (forall i :: 0 <= i < |run| ==> OnlyContainers(run[i].items)) <==>
              (forall i :: 0 <= i < |acts| && acts[i].Remove? ==> !Disturbed(run[i]))
  {
    if forall i :: 0 <= i < |acts| && acts[i].Remove? ==> !Disturbed(run[i]) {
      for i := 0 to |acts|
        invariant forall j :: 0 <= j <= i ==> OnlyContainers(run[j].items)
      {
        InvAlongRun(c, run, acts, i);
        StepKeepsContainersIff(c, run[i], acts[i]);
      }
    }
    if forall i :: 0 <= i < |run| ==> OnlyContainers(run[i].items) {
      forall i | 0 <= i < |acts| && acts[i].Remove? ensures !Disturbed(run[i]) {
        InvAlongRun(c, run, acts, i);
        StepKeepsContainersIff(c, run[i], acts[i]);
        assert OnlyContainers(run[i + 1].items);
      }
    }
  }

  /** What the kill and the store of a new container add to the report. */
  function NewItem(k: Key, now: int): Item {
    Item(k, 0.0, 0.0, 1, now, now, 0)
  }

  /** A kill that patches nothing, and its store. */
  lemma StoreNew(c: Config, s: State, k: Key, now: int) returns (t: State, u: State)
    requires !c.enabled && s.limits == map[] && s.held.None? && s.removing.None? && IsContainer(k) && !Named(s.items, k)
    ensures Enabled(s, Oom(k, 0, now, Refused)) && t == Apply(c, s, Oom(k, 0, now, Refused))
    ensures Enabled(t, Store(now)) && u == Apply(c, t, Store(now))
    ensures u.items == s.items + [NewItem(k, now)] && u.limits == map[] && u.held.None? && u.removing.None?
  {
    t := Apply(c, s, Oom(k, 0, now, Refused));
    u := Apply(c, t, Store(now));
  }

  /** Of three items two age out while the third is removed; two blank items are left. */
  lemma RemoveThird(c: Config, s: State, x: Item, y: Item, z: Item, now: int) returns (t: State, u: State, v: State)
    requires s.items == [x, y, z] && s.held.None? && s.removing.None? && z.key != BLANK_KEY
    requires TooOld(x, c.tooOldAge, now) && TooOld(y, c.tooOldAge, now) && !TooOld(z, c.tooOldAge, now)
    ensures Enabled(s, ReadLength([z])) && t == Apply(c, s, ReadLength([z]))
    ensures Enabled(t, AgeOut(now)) && u == Apply(c, t, AgeOut(now))
    ensures Enabled(u, Remove) && v == Apply(c, u, Remove)
    ensures v.items == [BLANK, BLANK]
  {
    t := Apply(c, s, ReadLength([z]));
    u := Apply(c, t, AgeOut(now));
    var young := Young(s.items, c.tooOldAge, now);
    assert young == [false, false, true];
    assert Filtered(s.items, young, 1) == [];
    assert Filtered(s.items, young, 2) == [];
    assert Filtered(s.items, young, 3) == [z];
    assert u.items == [z];
    SingleRemovalIsSafe(Padded(u.items, 3), 0, z);
    v := Apply(c, u, Remove);
    RemovalResult([z], 3, [z]);
    assert Named([z], z.key) && [z][0].key == z.key;
    assert AnyNamed([z], [z]);
    assert Without([z], [z]) == [];
    assert Blanks(2) == [BLANK, BLANK];
  }

  lemma RunGrows(c: Config, run: seq<State>, acts: seq<Action>, a: Action)
    returns (longer: seq<State>, more: seq<Action>)
    requires IsRun(c, run, acts) && Enabled(run[|acts|], a)
    ensures IsRun(c, longer, more) && more == acts + [a] && longer == run + [Apply(c, run[|acts|], a)]
  {
    var next := Apply(c, run[|acts|], a);
    longer, more := run + [next], acts + [a];
    forall i | 0 <= i < |more| ensures Enabled(longer[i], more[i]) && longer[i + 1] == Apply(c, longer[i], more[i]) {
      if i < |acts| {
        assert longer[i] == run[i] && longer[i + 1] == run[i + 1] && more[i] == acts[i];
      } else {
        assert longer[i] == run[|acts|] && longer[i + 1] == next && more[i] == a;
      }
    }
  }

  /** A kill that patches nothing and its store, at the end of a run. */
  lemma RunStoresNew(c: Config, run: seq<State>, acts: seq<Action>, k: Key, now: int)
    returns (longer: seq<State>, more: seq<Action>)
    requires IsRun(c, run, acts) && !c.enabled && IsContainer(k)
    requires var s := run[|acts|]; s.limits == map[] && s.held.None? && s.removing.None? && !Named(s.items, k)
    ensures IsRun(c, longer, more)
    ensures var u := longer[|more|];
      u.items == run[|acts|].items + [NewItem(k, now)] && u.limits == map[] && u.held.None? && u.removing.None?
  {
    var t, u := StoreNew(c, run[|acts|], k, now);
    longer, more := RunGrows(c, run, acts, Oom(k, 0, now, Refused));
    longer, more := RunGrows(c, longer, more, Store(now));
  }

  /** A run in which keys do not stay unique: three containers are killed and stored, and while the item of the last one
      is removed, the other two age out. */
  lemma AgeOutDuringRemoval(j: Key, k: Key, l: Key) returns (c: Config, run: seq<State>, acts: seq<Action>)
    requires IsContainer(j) && IsContainer(k) && IsContainer(l) && j != k && j != l && k != l
    ensures IsRun(c, run, acts) && !UniqueKeys(run[|acts|].items)
    ensures var year1 := -719_162 * 86_400_000_000_000;
      var blank := Item(Key("", "", "", ""), 0.0, 0.0, 0, year1, year1, 0);
      run[|acts|].items == [blank, blank]
  {
    c := Config(false, [], 0, 200, 300, 10);
    run, acts := [Init()], [];
    run, acts := RunStoresNew(c, run, acts, j, 0);
    run, acts := RunStoresNew(c, run, acts, k, 0);
    run, acts := RunStoresNew(c, run, acts, l, 50);
    var x, y, z := NewItem(j, 0), NewItem(k, 0), NewItem(l, 50);
    var s := run[|acts|];
    assert s.items == [x, y, z];
    var t, u, v := RemoveThird(c, s, x, y, z, 55);
    run, acts := RunGrows(c, run, acts, ReadLength([z]));
    run, acts := RunGrows(c, run, acts, AgeOut(55));
    run, acts := RunGrows(c, run, acts, Remove);
    assert v.items[0].key == v.items[1].key;
  }

  /** Somebody lowers the limit of a tracked container. */
  ghost predicate Undercut(c: Config, run: seq<State>, acts: seq<Action>)
    requires IsRun(c, run, acts)
  {
    exists i :: 0 <= i < |acts| && !Upward(run[i], acts[i])
  }

  lemma {:induction false} LimitsAlongRun(c: Config, run: seq<State>, acts: seq<Action>, k: nat)
    requires c.Valid() && IsRun(c, run, acts) && !Undercut(c, run, acts) && k < |run|
    ensures LimitInv(c, run[k])
  {
    if k > 0 {
      LimitsAlongRun(c, run, acts, k - 1);
      InvAlongRun(c, run, acts, k - 1);
      StepKeepsLimits(c, run[k - 1], acts[k - 1]);
    }
  }

  /** One step: a limit sent in a patch stays under the maximum of the first-seen limit, whoever changed the current
      one. The first-seen limit is that of the item in the report, or the current one of a new container. */
  lemma PatchUnderMaximum(c: Config, s: State, a: Action)
    requires IsPatched(c, s, a)
    ensures var start := if Named(s.items, a.key) then Entry(s, a.key).startingMemory else LimitOf(s, a.key);
      && Killed(c, s, a).held.value.startingMemory == start
      && LimitOf(Killed(c, s, a), a.key) - a.patch.roundedBy <= MultiplyQuantity(start, c.maximum)
  {
  }

  lemma BernoulliStep(p: real, x: real, d: real)
    requires p >= 1.0 + x && x >= 0.0 && d >= 0.0
    ensures p * (1.0 + d) >= 1.0 + x + d
  {
    assert p * d >= d;
  }

  lemma {:induction false} Bernoulli(r: real, n: nat)
    requires r >= 1.0
    ensures Power(r, n) >= 1.0 + Multiple(n, r - 1.0)
  {
    if n > 0 {
      Bernoulli(r, n - 1);
      BernoulliStep(Power(r, n - 1), Multiple(n - 1, r - 1.0), r - 1.0);
    }
  }

  /** n times d, by repeated addition. */
  function Multiple(n: nat, d: real): (m: real)
    ensures d >= 0.0 ==> m >= 0.0
  {
    if n == 0 then 0.0 else Multiple(n - 1, d) + d
  }

  lemma {:induction false} MultipleIsProduct(n: nat, d: int)
    ensures Multiple(n, d as real / 100.0) * 100.0 == (n * d) as real
  {
    if n > 0 {
      MultipleIsProduct(n - 1, d);
      assert n * d == (n - 1) * d + d;
    }
  }

  /** Patches of a container since its starting memory was recorded, read off the run. */
  function PatchesSinceFirstSeen(c: Config, run: seq<State>, acts: seq<Action>, i: nat, k: Key): nat
    requires |run| == |acts| + 1 && i < |run|
  {
    if i == 0 then 0
    else
      var s, a := run[i - 1], acts[i - 1];
      var isNew := a.Oom? && a.key == k && !Named(s.items, k);
      (if isNew then 0 else PatchesSinceFirstSeen(c, run, acts, i - 1, k))
      + if IsPatched(c, s, a) && a.key == k then 1 else 0
  }

  lemma {:induction false} PatchesMatchRun(c: Config, run: seq<State>, acts: seq<Action>, i: nat, k: Key)
    requires IsRun(c, run, acts) && i < |run|
    ensures Patches(run[i], k) == PatchesSinceFirstSeen(c, run, acts, i, k)
  {
    if i > 0 {
      PatchesMatchRun(c, run, acts, i - 1, k);
      StepCountsPatches(c, run[i - 1], acts[i - 1], k);
    }
  }

  lemma StepCountsPatches(c: Config, s: State, a: Action, k: Key)
    requires Enabled(s, a)
    ensures Patches(Apply(c, s, a), k) == (if a.Oom? && a.key == k && !Named(s.items, k) then 0 else Patches(s, k))
                                          + if IsPatched(c, s, a) && a.key == k then 1 else 0
  {
  }

  // ----- What the configuration allows -----

  /** Patching is enabled, and for the namespace if namespaces are listed. */
  ghost predicate Allows(c: Config, namespace: string) {
    c.enabled && (c.updateNamespaces == [] || namespace in c.updateNamespaces)
  }

  ghost predicate EnoughKills(c: Config, kills: int) {
    c.minimumOOMs <= 0 || kills >= c.minimumOOMs
  }

  /** Kills of the container that the report knows of, this one included. */
  function KillNumber(s: State, k: Key): int {
    if Named(s.items, k) then Entry(s, k).numOOMs + 1 else 1
  }

  function FirstSeenLimit(s: State, k: Key): real {
    if Named(s.items, k) then Entry(s, k).startingMemory else LimitOf(s, k)
  }

  /** A kill raises the limit in the cluster if and only if the configuration allows it, there were enough kills, the
      raised limit is not zero and not above the maximum of the first-seen one, and the patch is accepted; and it is
      raised by the increment. */
  lemma PatchedIff(c: Config, s: State, a: Action)
    requires a.Oom? && Enabled(s, a)
    ensures var raised := LimitOf(s, a.key) * (c.increment as real) / 100.0;
      var goesAhead := && Allows(c, a.key.namespace) && EnoughKills(c, KillNumber(s, a.key)) && a.patch.Accepted?
                       && 0.0 != raised <= FirstSeenLimit(s, a.key) * (c.maximum as real) / 100.0;
      && (IsPatched(c, s, a) <==> goesAhead)
      && LimitOf(Apply(c, s, a), a.key) == if goesAhead then raised + a.patch.roundedBy else LimitOf(s, a.key)
  {
  }

  /** Of all steps only a patched kill and a change by somebody else touch the limit of a container. */
  lemma OnlyPatchesAndResizes(c: Config, s: State, a: Action, k: Key)
    requires Enabled(s, a) && LimitOf(Apply(c, s, a), k) != LimitOf(s, k)
    ensures a.Oom? || a.Resize?
    ensures a.key == k
    ensures a.Oom? ==> Allows(c, k.namespace) && EnoughKills(c, KillNumber(s, k)) && a.patch.Accepted?
  {
    if a.Oom? {
      PatchedIff(c, s, a);
    }
  }

  /** In every run: without permission for its namespace no container is ever patched. */
  lemma {:induction false} PatchesAreAllowed(c: Config, run: seq<State>, acts: seq<Action>, i: nat, k: Key)
    requires IsRun(c, run, acts) && i < |run| && !Allows(c, k.namespace)
    ensures PatchesSinceFirstSeen(c, run, acts, i, k) == 0
  {
    if i > 0 {
      PatchesAreAllowed(c, run, acts, i - 1, k);
      if IsPatched(c, run[i - 1], acts[i - 1]) {
        PatchedIff(c, run[i - 1], acts[i - 1]);
      }
    }
  }

  /** In every run: unless patching is allowed for its namespace, the limit of a container changes only by others. */
  lemma {:induction false} NotAllowedIsUntouched(c: Config, run: seq<State>, acts: seq<Action>, i: nat, j: nat, k: Key)
    requires IsRun(c, run, acts) && i <= j < |run| && !Allows(c, k.namespace)
    requires forall l :: i <= l < j && acts[l].Resize? ==> acts[l].key != k
    ensures LimitOf(run[j], k) == LimitOf(run[i], k)
  {
    if i < j {
      NotAllowedIsUntouched(c, run, acts, i, j - 1, k);
      if LimitOf(run[j], k) != LimitOf(run[j - 1], k) {
        OnlyPatchesAndResizes(c, run[j - 1], acts[j - 1], k);
      }
    }
  }

  /** In every run: a kill that is patched is at least the minimum-th one since the container entered the report. */
  lemma PatchedKillIsLate(c: Config, run: seq<State>, acts: seq<Action>, i: nat)
    requires IsRun(c, run, acts) && i < |acts| && IsPatched(c, run[i], acts[i])
    ensures Allows(c, acts[i].key.namespace)
    ensures c.minimumOOMs <= 1 || StoresSinceInsertion(run, acts, i, acts[i].key) + 1 >= c.minimumOOMs
  {
    var k := acts[i].key;
    PatchedIff(c, run[i], acts[i]);
    if Named(run[i].items, k) {
      StoresMatchRun(c, run, acts, i, k);
      InvAlongRun(c, run, acts, i);
    }
  }

  /** At most (maximum - 1) / (increment - 1) patches are made while an item keeps its starting memory,
      however kills, ageing and removals interleave, if nobody lowers its limit. A replica that is killed while it
      still carries an earlier limit is such a case too. */
  lemma PatchesBounded(c: Config, run: seq<State>, acts: seq<Action>, i: nat, k: Key)
    requires c.Valid() && c.increment > 100 && IsRun(c, run, acts) && !Undercut(c, run, acts) && i < |run|
    ensures var n := PatchesSinceFirstSeen(c, run, acts, i, k);
      n > 0 ==> n * (c.increment - 100) <= c.maximum - 100
  {
    LimitsAlongRun(c, run, acts, i);
    PatchesMatchRun(c, run, acts, i, k);
    var n := Patches(run[i], k);
    if n > 0 {
      assert Fits(c, n);
      Bernoulli(Rate(c), n);
      assert Rate(c) - 1.0 == (c.increment - 100) as real / 100.0;
      MultipleIsProduct(n, c.increment - 100);
    }
  }

  /** A kill of a new container that is patched, and its store. */
  lemma PatchNew(c: Config, s: State, k: Key, p: Patch) returns (t: State, u: State)
    requires c == Config(true, [], 0, 200, 200, 0) && s.items == [] && s.held.None? && s.removing.None?
    requires IsContainer(k) && LimitOf(s, k) == 1.0 && p.Accepted? && p.roundedBy == 0.0
    ensures var a := Oom(k, 0, 0, p);
      Enabled(s, a) && t == Apply(c, s, a) && IsPatched(c, s, a) && Enabled(t, Store(0)) && u == Apply(c, t, Store(0))
    ensures |u.items| == 1 && u.items[0].key == k && u.items[0].startingMemory == 1.0
    ensures u.held.None? && u.removing.None?
  {
    var a := Oom(k, 0, 0, p);
    assert MultiplyQuantity(1.0, 200) == 2.0;
    t := Apply(c, s, a);
    u := Apply(c, t, Store(0));
  }

  /** A kill of a known container whose pod carries the first-seen limit again. */
  lemma PatchAgain(c: Config, s: State, k: Key, p: Patch) returns (t: State)
    requires c == Config(true, [], 0, 200, 200, 0) && s.held.None? && s.removing.None?
    requires |s.items| == 1 && s.items[0].key == k && s.items[0].startingMemory == 1.0
    requires IsContainer(k) && LimitOf(s, k) == 1.0 && p.Accepted? && p.roundedBy == 0.0
    ensures var a := Oom(k, 0, 0, p); Enabled(s, a) && t == Apply(c, s, a) && IsPatched(c, s, a) && Named(s.items, k)
  {
    assert MultiplyQuantity(1.0, 200) == 2.0;
    t := Apply(c, s, Oom(k, 0, 0, p));
  }

  /** A run in which a container with limit one is killed once, patched to two and stored. */
  lemma PatchedOnce(k: Key, p: Patch) returns (c: Config, run: seq<State>, acts: seq<Action>)
    requires IsContainer(k) && p.Accepted? && p.roundedBy == 0.0
    ensures c == Config(true, [], 0, 200, 200, 0) && IsRun(c, run, acts) && |acts| == 3
    ensures var u := run[3];
      && u.held.None? && u.removing.None? && LimitOf(u, k) == 2.0 && Patches(u, k) == 1
      && |u.items| == 1 && u.items[0].key == k && u.items[0].startingMemory == 1.0
  {
    c := Config(true, [], 0, 200, 200, 0);
    run, acts := [Init()], [];
    run, acts := RunGrows(c, run, acts, Resize(k, 1.0));
    var t, u := PatchNew(c, run[1], k, p);
    run, acts := RunGrows(c, run, acts, Oom(k, 0, 0, p));
    run, acts := RunGrows(c, run, acts, Store(0));
  }

  /** A run in which the bound fails: a second replica is killed that still carries the limit from before the patch, and
      the container is patched again although the maximum allows one patch only. */
  lemma LaggingReplicaIsPatchedAgain(k: Key) returns (c: Config, run: seq<State>, acts: seq<Action>)
    requires IsContainer(k)
    ensures c.Valid() && c.increment > 100 && IsRun(c, run, acts) && Undercut(c, run, acts)
    ensures var n := PatchesSinceFirstSeen(c, run, acts, |acts|, k);
      n == 2 && n * (c.increment - 100) > c.maximum - 100
  {
    var p := Accepted(0.0, true, 1);
    c, run, acts := PatchedOnce(k, p);
    ghost var u, n := run[3], |acts|;
    run, acts := RunGrows(c, run, acts, Resize(k, 1.0));
    assert !Upward(u, Resize(k, 1.0)) && run[n] == u && acts[n] == Resize(k, 1.0);
    ghost var s4 := run[4];
    var v := PatchAgain(c, s4, k, p);
    run, acts := RunGrows(c, run, acts, Oom(k, 0, 0, p));
    assert run[n] == u && acts[n] == Resize(k, 1.0);
    StepCountsPatches(c, s4, Oom(k, 0, 0, p), k);
    PatchesMatchRun(c, run, acts, |acts|, k);
  }

  /** A container that is in the report after a removal has the same item as before. */
  lemma RemoveKeepsEntry(s: State, k: Key)
    requires Inv(s) && s.removing.Some? && IsContainer(k) && Named(Removed(s).items, k)
    ensures Named(s.items, k) && Entry(Removed(s), k) == Entry(s, k)
  {
    var front, at, n := RemovedSplits(s);
    FoundBeforeBlanks(front, n, k);
    ShrinkKeepsFound(front, s.items, at, k);
  }

  lemma AgeOutKeepsEntry(c: Config, s: State, now: int, k: Key)
    requires Inv(s) && IsContainer(k) && Named(Aged(s.items, c.tooOldAge, now), k)
    ensures Named(s.items, k)
    ensures Entry(s.(items := Aged(s.items, c.tooOldAge, now)), k) == Entry(s, k)
  {
    var at := FilteredPicks(s.items, Young(s.items, c.tooOldAge, now), |s.items|);
    ShrinkKeepsFound(Aged(s.items, c.tooOldAge, now), s.items, at, k);
  }

  /** While a container is in the report no step changes its first kill or its starting memory. */
  lemma StepKeepsOrigin(c: Config, s: State, a: Action, k: Key)
    requires Inv(s) && Enabled(s, a) && IsContainer(k)
    requires Named(s.items, k) && Named(Apply(c, s, a).items, k)
    ensures var t := Apply(c, s, a);
      Entry(t, k).firstOOM == Entry(s, k).firstOOM && Entry(t, k).startingMemory == Entry(s, k).startingMemory
  {
    var t := Apply(c, s, a);
    match a
    case Oom(_, _, _, _) =>
    case Store(now) =>
      var i := IndexOf(s.items, k);
      assert t.items[i].key == k;
      assert forall j :: 0 <= j < i ==> t.items[j].key != k;
      assert IndexOf(t.items, k) == i;
    case AgeOut(now) => AgeOutKeepsEntry(c, s, now, k);
    case ReadLength(_) =>
    case Remove => RemoveKeepsEntry(s, k);
    case Resize(_, _) =>
  }

  ghost predicate SameOrigin(s: State, t: State, k: Key) {
    && Named(s.items, k) && Named(t.items, k)
    && Entry(t, k).firstOOM == Entry(s, k).firstOOM && Entry(t, k).startingMemory == Entry(s, k).startingMemory
  }

  ghost predicate InReport(s: State, k: Key) {
    Named(s.items, k)
  }

  lemma OriginNext(c: Config, first: State, s: State, a: Action, k: Key)
    requires Inv(s) && Enabled(s, a) && IsContainer(k) && SameOrigin(first, s, k) && InReport(Apply(c, s, a), k)
    ensures SameOrigin(first, Apply(c, s, a), k)
  {
    StepKeepsOrigin(c, s, a, k);
  }

  /** As long as a container stays in the report its first kill and starting memory stay the same. */
  lemma {:induction false} OriginIsStable(c: Config, run: seq<State>, acts: seq<Action>, a: nat, b: nat, k: Key)
    requires IsRun(c, run, acts) && a <= b < |run| && IsContainer(k)
    requires forall i :: a <= i <= b ==> InReport(run[i], k)
    ensures SameOrigin(run[a], run[b], k)
  {
    assert InReport(run[b], k);
    if a < b {
      OriginIsStable(c, run, acts, a, b - 1, k);
      InvAlongRun(c, run, acts, b - 1);
      OriginNext(c, run[a], run[b - 1], acts[b - 1], k);
    }
  }

  /** Stores of an item since it last entered the report, read off the run. */
  function StoresSinceInsertion(run: seq<State>, acts: seq<Action>, i: nat, k: Key): nat
    requires |run| == |acts| + 1 && i < |run|
  {
    if i == 0 || !Named(run[i].items, k) then 0
    else StoresSinceInsertion(run, acts, i - 1, k)
         + if acts[i - 1].Store? && run[i - 1].held.Some? && run[i - 1].held.value.key == k then 1 else 0
  }

  lemma {:induction false} StoresMatchRun(c: Config, run: seq<State>, acts: seq<Action>, i: nat, k: Key)
    requires IsRun(c, run, acts) && i < |run| && IsContainer(k) && Named(run[i].items, k)
    ensures Stores(run[i], k) == StoresSinceInsertion(run, acts, i, k)
  {
    assert i > 0;
    var s, a := run[i - 1], acts[i - 1];
    InvAlongRun(c, run, acts, i - 1);
    StepKeepsStores(c, s, a, k);
    if Named(s.items, k) {
      StoresMatchRun(c, run, acts, i - 1, k);
    }
  }

  lemma StepKeepsStores(c: Config, s: State, a: Action, k: Key)
    requires Inv(s) && Enabled(s, a) && IsContainer(k) && Named(Apply(c, s, a).items, k)
    ensures var stored := a.Store? && s.held.value.key == k;
      && (Named(s.items, k) ==> Stores(Apply(c, s, a), k) == Stores(s, k) + if stored then 1 else 0)
      && (!Named(s.items, k) ==> stored && Stores(Apply(c, s, a), k) == 1)
  {
    var t := Apply(c, s, a);
    match a
    case Oom(_, _, _, _) =>
    case Store(now) =>
      if s.held.value.key != k {
        var i := IndexOf(t.items, k);
        assert t.items[i] == s.items[i];
      }
    case AgeOut(now) => AgeOutKeepsEntry(c, s, now, k);
    case ReadLength(_) =>
    case Remove => RemoveKeepsEntry(s, k);
    case Resize(_, _) =>
  }

  /** In every run a container has one item, and its NumOOMs is the number of its stores since it was inserted. */
  lemma KillsAreCounted(c: Config, run: seq<State>, acts: seq<Action>, i: nat, k: Key)
    requires IsRun(c, run, acts) && i < |run| && IsContainer(k) && Named(run[i].items, k)
    ensures forall j, l :: 0 <= j < l < |run[i].items| && run[i].items[j].key == k ==> run[i].items[l].key != k
    ensures Entry(run[i], k).numOOMs == StoresSinceInsertion(run, acts, i, k)
  {
    InvAlongRun(c, run, acts, i);
    StoresMatchRun(c, run, acts, i, k);
  }

  // ----- The controller object -----

  datatype Termination = Termination(oomKilled: bool, finishedAt: int)

  /** What the controller finds out about one container of a pod; `now` and `storedAt` are clock readings. */
  datatype ContainerStatus = ContainerStatus(
    lastTermination: Option<Termination>, state: Option<Termination>, inPodSpec: bool, ownerFound: bool,
    key: Key, generation: int, now: int, storedAt: int, patch: Patch)

  predicate WasOomKilled(t: Option<Termination>) {
    t.Some? && t.value.oomKilled
  }

  predicate Skipped(st: ContainerStatus, startTime: int) {
    || (!WasOomKilled(st.lastTermination) && !WasOomKilled(st.state))
    || (if st.lastTermination.Some? then st.lastTermination.value else st.state.value).finishedAt < startTime
    || !st.inPodSpec
  }

  function AsKill(st: ContainerStatus): Action {
    Oom(st.key, st.generation, st.now, st.patch)
  }

  /** The protocol steps for the statuses of one pod. */
  function AfterPod(c: Config, s: State, statuses: seq<ContainerStatus>, startTime: int): State
    decreases |statuses|
  {
    if statuses == [] then s
    else if Skipped(statuses[0], startTime) then AfterPod(c, s, statuses[1..], startTime)
    else if !statuses[0].ownerFound then s
    else
      AfterPod(c, StoredHeld(Killed(c, s, AsKill(statuses[0])), statuses[0].storedAt), statuses[1..], startTime)
  }

  /** What the controller acts on: a container killed for memory, in its last termination or its current one, that is in
      the pod's spec. The last termination, or the current one if there is no other, finished since the start. */
  ghost predicate ActedOn(st: ContainerStatus, startTime: int) {
    && st.inPodSpec
    && (|| (st.lastTermination.Some? && st.lastTermination.value.oomKilled)
        || (st.state.Some? && st.state.value.oomKilled))
    && (st.lastTermination.Some? ==> st.lastTermination.value.finishedAt >= startTime)
    && (st.lastTermination.None? && st.state.Some? ==> st.state.value.finishedAt >= startTime)
  }

  function AfterKill(c: Config, s: State, st: ContainerStatus): State {
    StoredHeld(Killed(c, s, AsKill(st)), st.storedAt)
  }

  /** Of the limits only that of the container killed may change, and only with permission, enough kills and an accepted
      patch. */
  ghost predicate TouchesOwnLimit(c: Config, s: State, st: ContainerStatus, t: State) {
    && (forall k :: k != st.key ==> LimitOf(t, k) == LimitOf(s, k))
    && (LimitOf(t, st.key) != LimitOf(s, st.key) ==>
          Allows(c, st.key.namespace) && EnoughKills(c, KillNumber(s, st.key)) && st.patch.Accepted?)
  }

  lemma KillTouchesOwnLimit(c: Config, s: State, st: ContainerStatus)
    ensures TouchesOwnLimit(c, s, st, AfterKill(c, s, st))
  {
  }

  function AfterKills(c: Config, s: State, kills: seq<ContainerStatus>): State
    decreases |kills|
  {
    if kills == [] then s else AfterKills(c, AfterKill(c, s, kills[0]), kills[1..])
  }

  /** `kills` are the entries of `statuses` at the strictly increasing positions `at`, from `p` up to `stop`. */
  ghost predicate TakenAt(kills: seq<ContainerStatus>, statuses: seq<ContainerStatus>, p: nat, stop: nat,
                          at: seq<nat>) {
    && |at| == |kills| && stop <= |statuses|
    && (forall i :: 0 <= i < |at| ==> p <= at[i] < stop && kills[i] == statuses[at[i]])
    && (forall i, j :: 0 <= i < j < |at| ==> at[i] < at[j])
  }

  /** The positions are exactly those of statuses acted on. */
  ghost predicate ExactlyActedOn(statuses: seq<ContainerStatus>, p: nat, stop: nat, startTime: int, at: seq<nat>) {
    stop <= |statuses| && forall q :: p <= q < stop ==> (q in at <==> ActedOn(statuses[q], startTime))
  }

  lemma TakenNext(kills: seq<ContainerStatus>, statuses: seq<ContainerStatus>, p: nat, stop: nat, at: seq<nat>)
    requires p < stop && TakenAt(kills, statuses, p + 1, stop, at)
    ensures TakenAt([statuses[p]] + kills, statuses, p, stop, [p] + at)
  {
  }

  lemma ExactlyNext(statuses: seq<ContainerStatus>, p: nat, stop: nat, startTime: int, at: seq<nat>)
    requires p < stop && ExactlyActedOn(statuses, p + 1, stop, startTime, at)
    requires forall i :: 0 <= i < |at| ==> at[i] > p
    ensures ExactlyActedOn(statuses, p, stop, startTime, if ActedOn(statuses[p], startTime) then [p] + at else at)
  {
    assert forall q :: q in [p] + at <==> q == p || q in at;
  }

  lemma AfterPodNext(c: Config, s: State, statuses: seq<ContainerStatus>, p: nat, startTime: int)
    requires p < |statuses|
    ensures !ActedOn(statuses[p], startTime) ==>
              AfterPod(c, s, statuses[p..], startTime) == AfterPod(c, s, statuses[p + 1..], startTime)
    ensures ActedOn(statuses[p], startTime) ==>
              AfterPod(c, s, statuses[p..], startTime)
              == if statuses[p].ownerFound then AfterPod(c, AfterKill(c, s, statuses[p]), statuses[p + 1..], startTime)
                 else s
  {
    assert statuses[p..][0] == statuses[p] && statuses[p..][1..] == statuses[p + 1..];
  }

  lemma FirstKill(c: Config, s: State, st: ContainerStatus, kills: seq<ContainerStatus>)
    ensures AfterKills(c, s, [st] + kills) == AfterKills(c, AfterKill(c, s, st), kills)
  {
    assert ([st] + kills)[1..] == kills;
  }

  /** What is stored for one pod: the kills acted on, in the order of the statuses, up to the first one whose owner is
      not found. */
  lemma {:induction false} PodStoresKills(c: Config, s: State, statuses: seq<ContainerStatus>, p: nat, startTime: int)
    returns (kills: seq<ContainerStatus>, stop: nat, at: seq<nat>)
    requires p <= |statuses|
    ensures p <= stop && TakenAt(kills, statuses, p, stop, at) && ExactlyActedOn(statuses, p, stop, startTime, at)
    ensures forall i :: 0 <= i < |kills| ==> kills[i].ownerFound
    ensures stop < |statuses| ==> ActedOn(statuses[stop], startTime) && !statuses[stop].ownerFound
    ensures AfterPod(c, s, statuses[p..], startTime) == AfterKills(c, s, kills)
    decreases |statuses| - p
  {
    if p == |statuses| {
      kills, stop, at := [], p, [];
    } else {
      AfterPodNext(c, s, statuses, p, startTime);
      var st := statuses[p];
      if !ActedOn(st, startTime) {
        kills, stop, at := PodStoresKills(c, s, statuses, p + 1, startTime);
        ExactlyNext(statuses, p, stop, startTime, at);
      } else if !st.ownerFound {
        kills, stop, at := [], p, [];
      } else {
        kills, stop, at := PodStoresKills(c, AfterKill(c, s, st), statuses, p + 1, startTime);
        TakenNext(kills, statuses, p, stop, at);
        ExactlyNext(statuses, p, stop, startTime, at);
        FirstKill(c, s, st, kills);
        kills, at := [st] + kills, [p] + at;
      }
    }
  }

  class Controller {
    const config: Config
    const startTime: int
    const report: ReportBuilder
    var limits: map<Key, real>
    ghost var stores: map<Key, nat>
    ghost var patches: map<Key, nat>

    constructor (c: Config, start: int, report: ReportBuilder, limits: map<Key, real>)
      ensures this.config == c && this.startTime == start && this.report == report && this.limits == limits
    {
      this.config, this.startTime, this.report, this.limits := c, start, report, limits;
    }

    ghost function View(): State
      reads this, report
    {
      State(report.items, limits, None, None, stores, patches)
    }

    method ProcessContainer(st: ContainerStatus)
      modifies this, report
      ensures View() == StoredHeld(Killed(config, old(View()), AsKill(st)), st.storedAt)
      ensures TouchesOwnLimit(config, old(View()), st, View())
    {
      ghost var s := View();
      ghost var killed := Killed(config, s, AsKill(st));
      KillTouchesOwnLimit(config, s, st);
      var current := if st.key in limits then limits[st.key] else 0.0;
      var item := report.CreateRightSizerReportItem(st.key, st.generation, current, st.now);
      if Precheck(config, st.key.namespace, item.numOOMs) {
        var raised := IncrementMemory(item, current, config);
        if raised != 0.0 && st.patch.Accepted? {
          var stored := raised + st.patch.roundedBy;
          limits := limits[st.key := stored];
          item := item.(generation := st.patch.generation, endingMemory := if st.patch.found then stored else raised);
        }
      }
      report.StoreItem(item, st.storedAt);
      patches := killed.patches;
      stores := StoredHeld(killed, st.storedAt).stores;
    }

    method ProcessOOMKilledPod(statuses: seq<ContainerStatus>)
      modifies this, report
      ensures View() == AfterPod(config, old(View()), statuses, startTime)
      ensures forall k: Key :: !Allows(config, k.namespace) ==> LimitOf(View(), k) == LimitOf(old(View()), k)
    {
      ghost var target := AfterPod(config, View(), statuses, startTime);
      var i := 0;
      while i < |statuses|
        invariant 0 <= i <= |statuses|
        invariant AfterPod(config, View(), statuses[i..], startTime) == target
        invariant forall k: Key :: !Allows(config, k.namespace) ==> LimitOf(View(), k) == LimitOf(old(View()), k)
      {
        var st := statuses[i];
        assert statuses[i..][1..] == statuses[i + 1..];
        i := i + 1;
        if !WasOomKilled(st.lastTermination) && !WasOomKilled(st.state) {
          continue;
        }
        var termination := if st.lastTermination.Some? then st.lastTermination.value else st.state.value;
        if termination.finishedAt < startTime {
          continue;
        }
        if !st.inPodSpec {
          continue;
        }
        if !st.ownerFound {
          return;
        }
        ProcessContainer(st);
      }
    }
  }
}
