/** The in-memory report of the right-sizer: one item per container that ran out of memory, stored, looked up,
    aged out and removed. */
module RightSizerReport {

  /** What identifies an item. */
  datatype Key = Key(kind: string, namespace: string, name: string, container: string)

  datatype Item = Item(key: Key, startingMemory: real, endingMemory: real, numOOMs: int,
                       firstOOM: int, lastOOM: int, generation: int)

  /** The zero value of an item, as make() fills a new slice. Its kill times are the zero time, in nanoseconds. */
  const BLANK_KEY := Key("", "", "", "")
  const ZERO_TIME: int := -62_135_596_800_000_000_000
  const BLANK := Item(BLANK_KEY, 0.0, 0.0, 0, ZERO_TIME, ZERO_TIME, 0)

  ghost predicate UniqueKeys(items: seq<Item>) {
    forall i, j :: 0 <= i < j < |items| ==> items[i].key != items[j].key
  }

  function IndexFrom(items: seq<Item>, p: nat, k: Key): (i: nat)
    requires p <= |items|
    ensures p <= i <= |items|
    ensures i < |items| ==> items[i].key == k
    ensures forall j :: p <= j < i ==> items[j].key != k
    decreases |items| - p
  {
    if p == |items| || items[p].key == k then p else IndexFrom(items, p + 1, k)
  }

  /** Index of the first item with the key, or the number of items. */
  function IndexOf(items: seq<Item>, k: Key): nat {
    IndexFrom(items, 0, k)
  }

  predicate Named(items: seq<Item>, k: Key) {
    IndexOf(items, k) < |items|
  }

  // ----- What the operations do -----

  /** The item that an out-of-memory kill produces, before it is stored. */
  function Created(items: seq<Item>, k: Key, generation: int, limits: real, now: int): Item {
    var i := IndexOf(items, k);
    if i < |items| then items[i].(lastOOM := now, numOOMs := items[i].numOOMs + 1, endingMemory := limits)
    else Item(k, limits, limits, 1, now, now, generation)
  }

  /** The report after an item is stored. */
  function Stored(items: seq<Item>, item: Item, now: int): seq<Item> {
    var i := IndexOf(items, item.key);
    if i < |items| then items[i := item.(firstOOM := items[i].firstOOM, startingMemory := items[i].startingMemory)]
    else items + [item.(numOOMs := 1, firstOOM := now, lastOOM := now)]
  }

  predicate TooOld(item: Item, tooOldAge: int, now: int) {
    tooOldAge > 0 && now - item.lastOOM >= tooOldAge
  }

  /** Which items are young enough to stay. */
  function Young(items: seq<Item>, tooOldAge: int, now: int): seq<bool> {
    seq(|items|, i requires 0 <= i < |items| => !TooOld(items[i], tooOldAge, now))
  }

  /** Which items no removal entry names. */
  function Unnamed(items: seq<Item>, removals: seq<Item>): seq<bool> {
    seq(|items|, i requires 0 <= i < |items| => !Named(removals, items[i].key))
  }

  /** Of the first `n` items, those to keep, in their order. */
  function Filtered(items: seq<Item>, keep: seq<bool>, n: nat): (r: seq<Item>)
    requires n <= |items| == |keep|
    ensures |r| <= n
  {
    if n == 0 then []
    else if keep[n - 1] then Filtered(items, keep, n - 1) + [items[n - 1]]
    else Filtered(items, keep, n - 1)
  }

  function Aged(items: seq<Item>, tooOldAge: int, now: int): seq<Item> {
    Filtered(items, Young(items, tooOldAge, now), |items|)
  }

  function Without(items: seq<Item>, removals: seq<Item>): seq<Item> {
    Filtered(items, Unnamed(items, removals), |items|)
  }

  lemma {:induction false} FilteredAll(items: seq<Item>, keep: seq<bool>, n: nat)
    requires n <= |items| == |keep| && |Filtered(items, keep, n)| == n
    ensures Filtered(items, keep, n) == items[..n]
  {
    if n > 0 {
      FilteredAll(items, keep, n - 1);
    }
  }

  // ----- Removal -----

  /** RemoveItems makes its copy before it takes the lock and fills it afterwards: cells that the report no longer
      fills stay blank. */
  function Padded(items: seq<Item>, n: nat): seq<Item> {
    if n <= |items| then items[..n] else items + Blanks(n - |items|)
  }

  function Blanks(n: nat): (r: seq<Item>)
    ensures |r| == n && forall i :: 0 <= i < n ==> r[i] == BLANK
  {
    seq(n, _ => BLANK)
  }

  predicate AnyNamed(items: seq<Item>, removals: seq<Item>) {
    exists i :: 0 <= i < |items| && Named(removals, items[i].key)
  }

  /** The report after a removal whose copy has the length `n`. */
  function AfterRemoval(items: seq<Item>, n: nat, removals: seq<Item>): seq<Item> {
    if AnyNamed(Padded(items, n), removals) then Without(Padded(items, n), removals) else items
  }

  /** RemoveItems steps its index back after every removal, inside the loop over the removal list. At the front
      of the report it then reads the item at index -1: this happens when the item at the front is named by an
      entry that is not the last one, possibly after front items named by the last entry only were removed. */
  predicate CrashesFrom(items: seq<Item>, p: nat, removals: seq<Item>)
    decreases |items| - p
  {
    p < |items| &&
    var j := IndexOf(removals, items[p].key);
    j < |removals| - 1 || (j == |removals| - 1 && CrashesFrom(items, p + 1, removals))
  }

  predicate Crashes(items: seq<Item>, removals: seq<Item>) {
    CrashesFrom(items, 0, removals)
  }

  // ----- Order-preserving filters -----

  /** `r` consists of the items of `q` at strictly increasing positions `at`. */
  ghost predicate Picks(r: seq<Item>, q: seq<Item>, at: seq<nat>) {
    && |at| == |r|
    && (forall i :: 0 <= i < |at| ==> at[i] < |q| && r[i] == q[at[i]])
    && (forall i, j :: 0 <= i < j < |at| ==> at[i] < at[j])
  }

  lemma PicksGrow(r: seq<Item>, q: seq<Item>, at: seq<nat>, n: nat)
    requires Picks(r, q, at) && n < |q| && forall i :: 0 <= i < |at| ==> at[i] < n
    ensures Picks(r + [q[n]], q, at + [n])
  {
  }

  /** What a filter keeps are items to keep, in their order. */
  lemma {:induction false} FilteredPicks(items: seq<Item>, keep: seq<bool>, n: nat) returns (at: seq<nat>)
    requires n <= |items| == |keep|
    ensures Picks(Filtered(items, keep, n), items, at)
    ensures forall i :: 0 <= i < |at| ==> at[i] < n && keep[at[i]]
  {
    at := [];
    if n > 0 {
      at := FilteredPicks(items, keep, n - 1);
      if keep[n - 1] {
        PicksGrow(Filtered(items, keep, n - 1), items, at, n - 1);
        at := at + [n - 1];
      }
    }
  }

  /** A filter keeps every item to keep. */
  lemma {:induction false} FilteredHas(items: seq<Item>, keep: seq<bool>, n: nat, p: nat)
    requires p < n <= |items| == |keep| && keep[p]
    ensures items[p] in Filtered(items, keep, n)
  {
    if p < n - 1 {
      FilteredHas(items, keep, n - 1, p);
    }
  }

  /** The positions kept are exactly those to keep. */
  lemma {:induction false} FilteredPositions(items: seq<Item>, keep: seq<bool>, n: nat) returns (at: seq<nat>)
    requires n <= |items| == |keep|
    ensures Picks(Filtered(items, keep, n), items, at)
    ensures forall p :: p in at <==> 0 <= p < n && keep[p]
  {
    at := [];
    if n > 0 {
      at := FilteredPositions(items, keep, n - 1);
      if keep[n - 1] {
        assert forall i :: 0 <= i < |at| ==> at[i] in at;
        PicksGrow(Filtered(items, keep, n - 1), items, at, n - 1);
        at := at + [n - 1];
      }
    }
  }

  /** Age-out keeps exactly the items whose container was killed less than the age ago, in their order; everything if
      there is no age. */
  lemma AgedByLastKill(items: seq<Item>, tooOldAge: int, now: int) returns (at: seq<nat>)
    ensures Picks(Aged(items, tooOldAge, now), items, at)
    ensures forall p :: 0 <= p < |items| ==> (p in at <==> tooOldAge <= 0 || now - items[p].lastOOM < tooOldAge)
  {
    at := FilteredPositions(items, Young(items, tooOldAge, now), |items|);
  }

  /** None of the first `n` items is named by a removal entry. */
  ghost predicate NoneNamed(items: seq<Item>, n: nat, removals: seq<Item>) {
    n <= |items| && forall i :: 0 <= i < n ==> !Named(removals, items[i].key)
  }

  lemma FrontNotNamed(items: seq<Item>, p: nat, removals: seq<Item>)
    requires p <= |items|
    ensures var front := Filtered(items, Unnamed(items, removals), p); NoneNamed(front, |front|, removals)
  {
    var at := FilteredPicks(items, Unnamed(items, removals), p);
  }

  lemma PicksKeepUnique(r: seq<Item>, q: seq<Item>, at: seq<nat>)
    requires UniqueKeys(q) && Picks(r, q, at)
    ensures UniqueKeys(r)
  {
  }

  /** With unique keys the crash can be told from the first two items: RemoveItems fails if and only if the
      first item is named before the last removal entry, or the first is named by the last entry only and the
      second is named before it. */
  lemma CrashesIffUnique(items: seq<Item>, removals: seq<Item>)
    requires UniqueKeys(items)
    ensures Crashes(items, removals) <==>
              || (|items| >= 1 && IndexOf(removals, items[0].key) < |removals| - 1)
              || (|items| >= 2 && IndexOf(removals, items[0].key) == |removals| - 1
                               && IndexOf(removals, items[1].key) < |removals| - 1)
  {
    var last := |removals| - 1;
    if |items| >= 1 && IndexOf(removals, items[0].key) == last {
      assert CrashesFrom(items, 0, removals) == CrashesFrom(items, 1, removals);
      if |items| >= 2 {
        assert items[0].key != items[1].key;
        assert IndexOf(removals, items[1].key) != last;
        assert CrashesFrom(items, 1, removals) == (IndexOf(removals, items[1].key) < last);
      }
    }
  }

  /** Removing one item never crashes. */
  lemma {:induction false} SingleRemovalIsSafe(items: seq<Item>, p: nat, item: Item)
    ensures !CrashesFrom(items, p, [item])
    decreases |items| - p
  {
    if p < |items| {
      SingleRemovalIsSafe(items, p + 1, item);
    }
  }

  /** Removing two containers of one workload that stand at the front of the report crashes. */
  lemma RemovalCanCrash(a: Item, b: Item, rest: seq<Item>)
    requires a.key.container != b.key.container && b.key == a.key.(container := b.key.container)
    ensures UniqueKeys([a, b]) && Crashes([a, b] + rest, [a, b])
  {
    assert ([a, b] + rest)[0] == a;
    assert IndexOf([a, b], a.key) == 0;
  }

  lemma NextItem(front: seq<Item>, items: seq<Item>, p: nat)
    requires p < |items|
    ensures front + items[p..] == front + [items[p]] + items[p + 1..]
  {
  }

  /** Nothing stays of the items before position `p`, and the item there is named before the last entry. */
  ghost predicate CrashAt(all: seq<Item>, removals: seq<Item>, p: nat) {
    p < |all| && Filtered(all, Unnamed(all, removals), p) == [] && IndexOf(removals, all[p].key) < |removals| - 1
  }

  ghost predicate CalmBefore(all: seq<Item>, removals: seq<Item>, n: nat) {
    forall p :: 0 <= p < n ==> !CrashAt(all, removals, p)
  }

  lemma FilteredNext(all: seq<Item>, removals: seq<Item>, p: nat)
    requires p < |all|
    ensures var front := Filtered(all, Unnamed(all, removals), p);
      Filtered(all, Unnamed(all, removals), p + 1) == if Named(removals, all[p].key) then front else front + [all[p]]
  {
  }

  /** Of the first `p` items `front` stays, and nothing crashed so far. */
  ghost predicate DealtWith(all: seq<Item>, removals: seq<Item>, p: nat, front: seq<Item>)
    requires p <= |all|
  {
    front == Filtered(all, Unnamed(all, removals), p) && CalmBefore(all, removals, p)
  }

  lemma OneMoreDealtWith(all: seq<Item>, removals: seq<Item>, p: nat, front: seq<Item>)
    requires p < |all| && DealtWith(all, removals, p, front)
    requires !(front == [] && IndexOf(removals, all[p].key) < |removals| - 1)
    ensures DealtWith(all, removals, p + 1, if Named(removals, all[p].key) then front else front + [all[p]])
  {
    FilteredNext(all, removals, p);
  }

  lemma {:induction false} FrontStays(all: seq<Item>, removals: seq<Item>, p: nat, q: nat)
    requires p <= q <= |all| && Filtered(all, Unnamed(all, removals), p) != []
    ensures Filtered(all, Unnamed(all, removals), q) != []
  {
    if p < q {
      FrontStays(all, removals, p, q - 1);
    }
  }

  lemma {:induction false} CrashesFromIffAt(all: seq<Item>, removals: seq<Item>, p: nat)
    requires p <= |all| && Filtered(all, Unnamed(all, removals), p) == []
    ensures CrashesFrom(all, p, removals) <==> exists q :: p <= q < |all| && CrashAt(all, removals, q)
    decreases |all| - p
  {
    if p < |all| {
      FilteredNext(all, removals, p);
      if Named(removals, all[p].key) {
        CrashesFromIffAt(all, removals, p + 1);
        assert (exists q :: p <= q < |all| && CrashAt(all, removals, q)) <==>
               CrashAt(all, removals, p) || exists q :: p + 1 <= q < |all| && CrashAt(all, removals, q);
      } else {
        forall q | p < q < |all| ensures !CrashAt(all, removals, q) {
          FrontStays(all, removals, p + 1, q);
        }
      }
    }
  }

  lemma CrashesIffAt(all: seq<Item>, removals: seq<Item>)
    ensures Crashes(all, removals) <==> exists q :: 0 <= q < |all| && CrashAt(all, removals, q)
  {
    CrashesFromIffAt(all, removals, 0);
  }

  // ----- What age-out during a removal does -----

  lemma {:induction false} FilteredJoin(a: seq<Item>, b: seq<Item>, removals: seq<Item>, n: nat)
    requires n <= |b|
    ensures Filtered(a + b, Unnamed(a + b, removals), |a| + n)
            == Without(a, removals) + Filtered(b, Unnamed(b, removals), n)
  {
    if n == 0 {
      FilteredFront(a, b, removals, |a|);
    } else {
      FilteredJoin(a, b, removals, n - 1);
      assert (a + b)[|a| + n - 1] == b[n - 1];
    }
  }

  lemma {:induction false} FilteredFront(a: seq<Item>, b: seq<Item>, removals: seq<Item>, n: nat)
    requires n <= |a|
    ensures Filtered(a + b, Unnamed(a + b, removals), n) == Filtered(a, Unnamed(a, removals), n)
  {
    if n > 0 {
      FilteredFront(a, b, removals, n - 1);
    }
  }

  lemma {:induction false} FilteredNone(items: seq<Item>, keep: seq<bool>, n: nat)
    requires n <= |items| == |keep| && forall i :: 0 <= i < n ==> !keep[i]
    ensures Filtered(items, keep, n) == []
  {
    if n > 0 {
      FilteredNone(items, keep, n - 1);
    }
  }

  lemma {:induction false} FilteredEvery(items: seq<Item>, keep: seq<bool>, n: nat)
    requires n <= |items| == |keep| && forall i :: 0 <= i < n ==> keep[i]
    ensures Filtered(items, keep, n) == items[..n]
  {
    if n > 0 {
      FilteredEvery(items, keep, n - 1);
    }
  }

  /** Removing from the padded copy keeps the blank cells, unless a removal entry names the blank item. */
  lemma PaddedWithout(items: seq<Item>, n: nat, removals: seq<Item>)
    requires |items| <= n
    ensures Without(Padded(items, n), removals)
            == Without(items, removals) + if Named(removals, BLANK_KEY) then [] else Blanks(n - |items|)
  {
    var b := Blanks(n - |items|);
    FilteredJoin(items, b, removals, |b|);
    assert Padded(items, n) == items + b;
    if Named(removals, BLANK_KEY) {
      FilteredNone(b, Unnamed(b, removals), |b|);
    } else {
      FilteredEvery(b, Unnamed(b, removals), |b|);
      assert b[..|b|] == b;
    }
  }

  /** The removal leaves blank items in the report: some items aged out after the length was read, one that is left is
      removed, and no entry names the blank item. */
  predicate LeavesBlanks(items: seq<Item>, n: nat, removals: seq<Item>) {
    |items| < n && AnyNamed(items, removals) && !Named(removals, BLANK_KEY)
  }

  lemma PaddedNamed(items: seq<Item>, n: nat, removals: seq<Item>)
    requires |items| <= n
    ensures AnyNamed(Padded(items, n), removals) <==>
              AnyNamed(items, removals) || (|items| < n && Named(removals, BLANK_KEY))
  {
    var q := Padded(items, n);
    assert forall i :: 0 <= i < |items| ==> q[i] == items[i];
    assert |items| < n ==> q[|items|] == BLANK;
  }

  lemma NothingNamed(items: seq<Item>, removals: seq<Item>)
    requires !AnyNamed(items, removals)
    ensures Without(items, removals) == items
  {
    FilteredEvery(items, Unnamed(items, removals), |items|);
    assert items[..|items|] == items;
  }

  /** What a removal makes of the report, when it was at most `n` items long at the lock. */
  lemma RemovalResult(items: seq<Item>, n: nat, removals: seq<Item>)
    requires |items| <= n
    ensures AfterRemoval(items, n, removals)
            == Without(items, removals) + if LeavesBlanks(items, n, removals) then Blanks(n - |items|) else []
  {
    PaddedWithout(items, n, removals);
    PaddedNamed(items, n, removals);
    if !AnyNamed(items, removals) {
      NothingNamed(items, removals);
    }
  }

  /** The report is the order-preserving filter of what was there if and only if no blanks are left. */
  lemma RemovalIsFilterIff(items: seq<Item>, n: nat, removals: seq<Item>)
    requires |items| <= n
    ensures AfterRemoval(items, n, removals) == Without(items, removals) <==> !LeavesBlanks(items, n, removals)
  {
    RemovalResult(items, n, removals);
    assert |AfterRemoval(items, n, removals)|
        == |Without(items, removals)| + if LeavesBlanks(items, n, removals) then n - |items| else 0;
  }

  /** Keys stay unique if and only if no blanks are left, or just one item aged out and no blank was there before. */
  lemma RemovalKeepsUniqueIff(items: seq<Item>, n: nat, removals: seq<Item>)
    requires |items| <= n && UniqueKeys(items)
    ensures UniqueKeys(AfterRemoval(items, n, removals)) <==>
              !LeavesBlanks(items, n, removals) || (n == |items| + 1 && !Named(items, BLANK_KEY))
  {
    RemovalResult(items, n, removals);
    var at := FilteredPicks(items, Unnamed(items, removals), |items|);
    var front, r := Without(items, removals), AfterRemoval(items, n, removals);
    PicksKeepUnique(front, items, at);
    if LeavesBlanks(items, n, removals) {
      assert r[|front|] == BLANK;
      if n > |items| + 1 {
        assert r[|front| + 1] == BLANK;
      } else if Named(items, BLANK_KEY) {
        var p := IndexOf(items, BLANK_KEY);
        FilteredHas(items, Unnamed(items, removals), |items|, p);
        var i :| 0 <= i < |front| && front[i] == items[p];
        assert r[i].key == r[|front|].key;
      } else {
        OneBlankIsUnique(front, items, at);
      }
    }
  }

  lemma OneBlankIsUnique(front: seq<Item>, items: seq<Item>, at: seq<nat>)
    requires UniqueKeys(front) && Picks(front, items, at) && !Named(items, BLANK_KEY)
    ensures UniqueKeys(front + Blanks(1))
  {
    forall i | 0 <= i < |front| ensures front[i].key != BLANK_KEY {
      assert front[i] == items[at[i]];
    }
  }

  lemma {:induction false} BlanksCrashIff(items: seq<Item>, p: nat, removals: seq<Item>)
    requires p <= |items| && forall q :: p <= q < |items| ==> items[q].key == BLANK_KEY
    ensures CrashesFrom(items, p, removals) <==> p < |items| && IndexOf(removals, BLANK_KEY) < |removals| - 1
    decreases |items| - p
  {
    if p < |items| {
      BlanksCrashIff(items, p + 1, removals);
    }
  }

  /** Of two items left, the later one is listed later. */
  lemma ListedInOrder(all: seq<Item>, removals: seq<Item>, at: seq<nat>, left: seq<Item>, lt: seq<nat>, i: nat, j: nat)
    requires UniqueKeys(all) && Picks(removals, all, at) && Picks(left, all, lt) && i < j < |left|
    requires Named(removals, left[i].key) && Named(removals, left[j].key)
    ensures IndexOf(removals, left[i].key) < IndexOf(removals, left[j].key)
  {
    var a, b := IndexOf(removals, left[i].key), IndexOf(removals, left[j].key);
    assert all[at[a]].key == all[lt[i]].key && at[a] == lt[i];
    assert all[at[b]].key == all[lt[j]].key && at[b] == lt[j];
  }

  /** A removal list is picked from the report `all` in its order, as the matching of items does; by the time the lock
      is taken only `left` is left of the report, and the copy has `n` cells. RemoveItems fails if and only if the
      first cell of the copy is named before the last entry, or the only item left is the last entry and the blank
      item, which fills the next cell, is named before it. */
  lemma MatchedListCrashesIff(all: seq<Item>, removals: seq<Item>, at: seq<nat>, left: seq<Item>, lt: seq<nat>, n: nat)
    requires UniqueKeys(all) && Picks(removals, all, at) && Picks(left, all, lt) && |left| <= n
    ensures var copied, last := Padded(left, n), |removals| - 1;
      Crashes(copied, removals) <==>
        && n > 0
        && (|| IndexOf(removals, copied[0].key) < last
            || (|left| == 1 < n && IndexOf(removals, left[0].key) == last && IndexOf(removals, BLANK_KEY) < last))
  {
    var copied, last := Padded(left, n), |removals| - 1;
    if left == [] {
      BlanksCrashIff(copied, 0, removals);
    } else if IndexOf(removals, left[0].key) == last {
      assert CrashesFrom(copied, 0, removals) == CrashesFrom(copied, 1, removals);
      if |left| == 1 {
        BlanksCrashIff(copied, 1, removals);
      } else if Named(removals, left[1].key) {
        ListedInOrder(all, removals, at, left, lt, 0, 1);
        assert false;
      }
    }
  }

  /** So for a list that does not name the blank item it fails if and only if the first item left is named before the
      last entry; where no item aged out meanwhile, if and only if the list has two entries or more and starts with the
      item at the front of the report. */
  lemma ListedAtFrontCrashesIff(all: seq<Item>, removals: seq<Item>, at: seq<nat>,
                                left: seq<Item>, lt: seq<nat>, n: nat)
    requires UniqueKeys(all) && Picks(removals, all, at) && Picks(left, all, lt) && |left| <= n
    requires !Named(removals, BLANK_KEY)
    ensures Crashes(Padded(left, n), removals) <==> left != [] && IndexOf(removals, left[0].key) < |removals| - 1
    ensures left == all && n == |all| ==> (Crashes(all, removals) <==> |removals| >= 2 && at[0] == 0)
  {
    MatchedListCrashesIff(all, removals, at, left, lt, n);
    if left == all && n == |all| {
      assert Padded(all, n) == all;
      FrontIsListedIff(all, removals, at);
    }
  }

  lemma FrontIsListedIff(all: seq<Item>, removals: seq<Item>, at: seq<nat>)
    requires UniqueKeys(all) && Picks(removals, all, at)
    ensures all != [] && IndexOf(removals, all[0].key) < |removals| - 1 <==> |removals| >= 2 && at[0] == 0
  {
    if removals != [] && at[0] == 0 {
      assert removals[0] == all[0] && IndexOf(removals, all[0].key) == 0;
    } else if all != [] {
      forall j | 0 <= j < |removals| ensures removals[j].key != all[0].key {
        assert removals[j] == all[at[j]] && at[j] != 0;
      }
    }
  }

  /** The longest time that time.Since reports. */
  const MAX_DURATION: int := 0x7fff_ffff_ffff_ffff

  /** Blank items go with the next age-out, if ageing out is on. */
  lemma BlanksAgeOut(items: seq<Item>, tooOldAge: int, now: int)
    requires 0 < tooOldAge <= MAX_DURATION && now >= 0
    ensures BLANK !in Aged(items, tooOldAge, now)
  {
    var r := Aged(items, tooOldAge, now);
    var at := FilteredPicks(items, Young(items, tooOldAge, now), |items|);
    forall i | 0 <= i < |r| ensures r[i] != BLANK {
      assert r[i] == items[at[i]] && !TooOld(r[i], tooOldAge, now);
    }
  }

  // ----- The report object -----

  class ReportBuilder {
    var items: seq<Item>
    const tooOldAge: int

    constructor (age: int)
      ensures items == []
      ensures tooOldAge == if age > 0 then age else 86_400_000_000_000
    {
      items := [];
      tooOldAge := if age > 0 then age else 86_400_000_000_000;
    }

    method PopulateExistingItemFields(yourItem: Item) returns (foundItem: bool, filled: Item)
      ensures foundItem <==> Named(items, yourItem.key)
      ensures filled == if foundItem then items[IndexOf(items, yourItem.key)] else yourItem
    {
      var i := 0;
      while i < |items|
        invariant 0 <= i <= |items|
        invariant forall j :: 0 <= j < i ==> items[j].key != yourItem.key
      {
        if items[i].key == yourItem.key {
          return true, items[i];
        }
        i := i + 1;
      }
      return false, yourItem;
    }

    method CreateRightSizerReportItem(k: Key, generation: int, limits: real, now: int) returns (item: Item)
      ensures item == Created(items, k, generation, limits, now)
      ensures item.key == k && item.lastOOM == now && item.endingMemory == limits
      ensures Named(items, k) ==>
                var known := items[IndexOf(items, k)];
                && item.numOOMs == known.numOOMs + 1 && item.generation == known.generation
                && item.startingMemory == known.startingMemory && item.firstOOM == known.firstOOM
      ensures !Named(items, k) ==>
                && item.numOOMs == 1 && item.generation == generation
                && item.startingMemory == limits && item.firstOOM == now
    {
      var blank := Item(k, 0.0, 0.0, 0, 0, 0, generation);
      var found;
      found, item := PopulateExistingItemFields(blank);
      item := item.(lastOOM := now, numOOMs := item.numOOMs + 1, endingMemory := limits);
      if !found {
        item := item.(firstOOM := item.lastOOM, startingMemory := limits);
      }
    }

    method StoreItem(newItem: Item, now: int)
      modifies this
      ensures items == Stored(old(items), newItem, now)
      ensures Named(old(items), newItem.key) ==>
                var p := IndexOf(old(items), newItem.key);
                && |items| == |old(items)| && (forall i :: 0 <= i < |items| && i != p ==> items[i] == old(items)[i])
                && items[p].firstOOM == old(items)[p].firstOOM
                && items[p].startingMemory == old(items)[p].startingMemory
                && items[p].key == newItem.key && items[p].endingMemory == newItem.endingMemory
                && items[p].numOOMs == newItem.numOOMs && items[p].lastOOM == newItem.lastOOM
                && items[p].generation == newItem.generation
      ensures !Named(old(items), newItem.key) ==>
                && |items| == |old(items)| + 1 && items[..|old(items)|] == old(items)
                && items[|old(items)|].key == newItem.key && items[|old(items)|].numOOMs == 1
                && items[|old(items)|].firstOOM == items[|old(items)|].lastOOM == now
                && items[|old(items)|].startingMemory == newItem.startingMemory
                && items[|old(items)|].endingMemory == newItem.endingMemory
                && items[|old(items)|].generation == newItem.generation
    {
      var i := 0;
      while i < |items|
        invariant 0 <= i <= |items| && items == old(items)
        invariant forall j :: 0 <= j < i ==> items[j].key != newItem.key
      {
        if items[i].key == newItem.key {
          items := items[i := newItem.(firstOOM := items[i].firstOOM, startingMemory := items[i].startingMemory)];
          return;
        }
        i := i + 1;
      }
      items := items + [newItem.(numOOMs := 1, firstOOM := now, lastOOM := now)];
    }

    method RemoveOldItems(now: int) returns (anyItemsRemoved: bool)
      modifies this
      ensures items == Aged(old(items), tooOldAge, now)
      ensures forall item :: item in items <==>
                item in old(items) && (tooOldAge <= 0 || now - item.lastOOM < tooOldAge)
      ensures anyItemsRemoved <==> items != old(items)
    {
      var keptItems: seq<Item> := [];
      var i := 0;
      while i < |items|
        invariant 0 <= i <= |items| && items == old(items)
        invariant keptItems == Filtered(items, Young(items, tooOldAge, now), i)
      {
        if !TooOld(items[i], tooOldAge, now) {
          keptItems := keptItems + [items[i]];
        }
        i := i + 1;
      }
      ghost var at := AgedByLastKill(items, tooOldAge, now);
      assert forall p :: 0 <= p < |items| && p in at ==> items[p] in keptItems;
      anyItemsRemoved := |keptItems| != |items|;
      if !anyItemsRemoved {
        FilteredAll(items, Young(items, tooOldAge, now), |items|);
      }
      if anyItemsRemoved {
        items := keptItems;
      }
    }

    /** The inner loop of RemoveItems, for the item after `front`. It goes on comparing after a removal,
        with the item in front of the removed one, which no entry names. */
    static method RemovePass(keptItems: seq<Item>, itemNum: int, removeItems: seq<Item>,
                             ghost front: seq<Item>, ghost item: Item, ghost rest: seq<Item>)
      returns (kept: seq<Item>, next: int, removed: bool, panicked: bool)
      requires itemNum == |front| && keptItems == front + [item] + rest
      requires NoneNamed(front, |front|, removeItems)
      ensures panicked <==> front == [] && IndexOf(removeItems, item.key) < |removeItems| - 1
      ensures !panicked ==> (removed <==> Named(removeItems, item.key))
      ensures !panicked ==> kept == (if removed then front else front + [item]) + rest
      ensures !panicked ==> next == if removed then itemNum - 1 else itemNum
    {
      kept, next, removed, panicked := keptItems, itemNum, false, false;
      ghost var found := IndexOf(removeItems, item.key);
      var j := 0;
      while j < |removeItems|
        invariant 0 <= j <= |removeItems|
        invariant removed <==> j > found
        invariant !removed ==> kept == keptItems && next == itemNum
        invariant removed ==> kept == front + rest && next == itemNum - 1
        invariant next < 0 ==> j == found + 1
      {
        if next < 0 {
          panicked := true;
          return;
        }
        assert kept[next] == if removed then front[next] else item;
        assert removed ==> !Named(removeItems, front[next].key);
        if kept[next].key == removeItems[j].key {
          assert !removed && kept[..next] == front && kept[next + 1..] == rest;
          kept := kept[..next] + kept[next + 1..];
          removed := true;
          next := next - 1;
        }
        j := j + 1;
      }
    }

    /** One turn of the outer loop of RemoveItems: the copy is what stays of the first `p` items of `all`, and the
        rest. */
    static method RemoveTurn(keptItems: seq<Item>, itemNum: int, removeItems: seq<Item>,
                             ghost all: seq<Item>, ghost p: nat, ghost front: seq<Item>)
      returns (kept: seq<Item>, next: int, removed: bool, panicked: bool)
      requires p < |all| && itemNum == |front| && keptItems == front + all[p..] && DealtWith(all, removeItems, p, front)
      ensures panicked ==> CrashAt(all, removeItems, p)
      ensures !panicked ==>
                var stays := if removed then front else front + [all[p]];
                next + 1 == |stays| && kept == stays + all[p + 1..] && DealtWith(all, removeItems, p + 1, stays)
    {
      NextItem(front, all, p);
      FrontNotNamed(all, p, removeItems);
      kept, next, removed, panicked := RemovePass(keptItems, itemNum, removeItems, front, all[p], all[p + 1..]);
      if !panicked {
        OneMoreDealtWith(all, removeItems, p, front);
      }
    }

    /** The outer loop of RemoveItems, on its copy of the report. */
    static method RemoveFromCopy(all: seq<Item>, removeItems: seq<Item>)
      returns (keptItems: seq<Item>, anyItemsRemoved: bool, panicked: bool)
      ensures panicked <==> exists p :: 0 <= p < |all| && CrashAt(all, removeItems, p)
      ensures !panicked ==> keptItems == Without(all, removeItems)
      ensures !panicked ==> (anyItemsRemoved <==> |keptItems| < |all|)
    {
      keptItems, anyItemsRemoved, panicked := all, false, false;
      var itemNum := 0;
      ghost var p := 0;                      // items of the report dealt with
      ghost var front: seq<Item> := [];      // those of them that stay
      while itemNum < |keptItems|
        invariant 0 <= p <= |all| && itemNum == |front| && !panicked
        invariant keptItems == front + all[p..] && DealtWith(all, removeItems, p, front)
        invariant anyItemsRemoved <==> itemNum < p
        decreases |all| - p
      {
        ghost var stays := front + [all[p]];
        var removed;
        keptItems, itemNum, removed, panicked := RemoveTurn(keptItems, itemNum, removeItems, all, p, front);
        if panicked {
          return;
        }
        front := if removed then front else stays;
        anyItemsRemoved := anyItemsRemoved || removed;
        itemNum := itemNum + 1;
        p := p + 1;
      }
      assert front == keptItems;
    }

    /** The locked part of RemoveItems, with a copy of length `n`. `panicked` stands for the index-out-of-range panic;
        the report is then left as it was. */
    method RemoveLocked(removeItems: seq<Item>, n: nat) returns (anyItemsRemoved: bool, panicked: bool)
      modifies this
      ensures panicked <==> Crashes(Padded(old(items), n), removeItems)
      ensures items == if panicked then old(items) else AfterRemoval(old(items), n, removeItems)
      ensures !panicked ==> (anyItemsRemoved <==> AnyNamed(Padded(old(items), n), removeItems))
    {
      var copied := Padded(items, n);
      CrashesIffAt(copied, removeItems);
      RemovedSomeIff(copied, removeItems);
      var keptItems;
      keptItems, anyItemsRemoved, panicked := RemoveFromCopy(copied, removeItems);
      if !panicked && anyItemsRemoved {
        items := keptItems;
      }
    }

    /** RemoveItems: the length is read before the lock is taken, and `ageOuts` are the passes of the other goroutine
        that come in between. */
    method RemoveItems(removeItems: seq<Item>, ageOuts: seq<int>) returns (anyItemsRemoved: bool, panicked: bool)
      modifies this
      ensures removeItems == [] ==> items == old(items) && !anyItemsRemoved && !panicked
      ensures removeItems != [] ==>
                var left := AgedBy(old(items), tooOldAge, ageOuts, |ageOuts|);
                && (panicked <==> Crashes(Padded(left, |old(items)|), removeItems))
                && items == (if panicked then left else AfterRemoval(left, |old(items)|, removeItems))
                && (!panicked ==> (anyItemsRemoved <==> AnyNamed(Padded(left, |old(items)|), removeItems)))
    {
      if |removeItems| == 0 {
        return false, false;
      }
      var numStartingItems := |items|;
      for i := 0 to |ageOuts|
        invariant items == AgedBy(old(items), tooOldAge, ageOuts, i)
      {
        var changed := RemoveOldItems(ageOuts[i]);
      }
      anyItemsRemoved, panicked := RemoveLocked(removeItems, numStartingItems);
    }
  }

  /** The report after age-out passes at the first `n` of these times. */
  function AgedBy(items: seq<Item>, tooOldAge: int, times: seq<int>, n: nat): (r: seq<Item>)
    requires n <= |times|
    ensures |r| <= |items|
  {
    if n == 0 then items else Aged(AgedBy(items, tooOldAge, times, n - 1), tooOldAge, times[n - 1])
  }

  lemma RemovedSomeIff(items: seq<Item>, removals: seq<Item>)
    ensures |Without(items, removals)| < |items| <==> AnyNamed(items, removals)
  {
    if !AnyNamed(items, removals) {
      NothingNamed(items, removals);
    } else if |Without(items, removals)| == |items| {
      var i :| 0 <= i < |items| && Named(removals, items[i].key);
      FilteredAll(items, Unnamed(items, removals), |items|);
      assert items[..|items|] == items;
      FrontNotNamed(items, |items|, removals);
      assert false;
    }
  }
}
