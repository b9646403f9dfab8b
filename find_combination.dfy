/**
 * `findCombination` (src/plugins/amazon.plugin/findCombination.ts): which items of one
 * order make up a charge, by a cent-based subset-sum search.
 */
module Combination {
  import opened Wrappers
  import opened AmazonRecords
  import JsSort

  /** `getItemCents(item)`: the item's 'Item Total' in cents. */
  function Cents(item: Item): int {
    item.itemTotal
  }

  /** `items.reduce((previous, current) => previous + cents, 0)` */
  function SumCents(items: seq<Item>): int
    decreases |items|
  {
    if items == [] then 0 else SumCents(items[..|items| - 1]) + Cents(items[|items| - 1])
  }

  lemma SumCentsAppend(items: seq<Item>, x: Item)
    ensures SumCents(items + [x]) == SumCents(items) + Cents(x)
  {
    assert (items + [x])[..|items|] == items;
  }

  /** `(a, b) => a.cents - b.cents` */
  function ByCents(a: Item, b: Item): JsSort.Comparison {
    JsSort.Num(Cents(a) - Cents(b))
  }

  /** `items.filter((item) => item.cents <= targetAmount)` */
  function AtMost(items: seq<Item>, target: int): (r: seq<Item>)
    ensures forall x :: x in r ==> x in items && Cents(x) <= target
    ensures forall x :: x in items && Cents(x) <= target ==> x in r
    decreases |items|
  {
    if items == [] then []
    else AtMost(items[..|items| - 1], target) + (if Cents(items[|items| - 1]) <= target then [items[|items| - 1]] else [])
  }

  /** `validItems`: the items of at most `target` cents, sorted by cents. */
  function ValidItems(items: seq<Item>, target: int): seq<Item> {
    JsSort.Sort(AtMost(items, target), ByCents)
  }

  /** `validItems` holds exactly the items not dearer than the target (with multiplicity), in ascending cents. */
  lemma ValidItemsSpec(items: seq<Item>, target: int)
    ensures multiset(ValidItems(items, target)) == multiset(AtMost(items, target))
    ensures JsSort.SortedBy(ValidItems(items, target), Cents)
    ensures forall x :: x in ValidItems(items, target) <==> x in items && Cents(x) <= target
  {
    JsSort.SortPermutes(AtMost(items, target), ByCents);
    JsSort.SortSortsByKey(AtMost(items, target), ByCents, Cents);
    forall x ensures x in ValidItems(items, target) <==> x in multiset(AtMost(items, target)) {
    }
  }

  /**
   * The subsets `subsetSumBase(numbers, target, partial)` pushes onto `options`, in push
   * order. `partial` is `None` for the first call (`undefined`).
   */
  function Found(numbers: seq<Item>, target: int, partial: Option<seq<Item>>): seq<seq<Item>>
    decreases |numbers|, 1
  {
    var sum := SumCents(partial.GetOr([]));
    if sum == target && partial.Some? then [partial.value]
    else if sum >= target then []
    else FoundFrom(numbers, target, partial.GetOr([]), 0)
  }

  /** The pushes of the `for` loop of `subsetSumBase` from index `i` on. */
  function FoundFrom(numbers: seq<Item>, target: int, prefix: seq<Item>, i: nat): seq<seq<Item>>
    requires i <= |numbers|
    decreases |numbers|, 0, |numbers| - i
  {
    if i == |numbers| then []
    else Found(numbers[i + 1..], target, Some(prefix + [numbers[i]])) + FoundFrom(numbers, target, prefix, i + 1)
  }

  /** `subsetSumBase`: recursive, with a `for` loop, pushing onto the shared `options` list. */
  method SubsetSumBase(numbers: seq<Item>, target: int, partial: Option<seq<Item>>, options: seq<seq<Item>>)
    returns (result: seq<seq<Item>>)
    ensures result == options + Found(numbers, target, partial)
    decreases |numbers|, 1
  {
    var sum := SumCents(partial.GetOr([]));
    result := options;
    if sum == target {
      if partial.Some? {
        result := result + [partial.value];
      }
    }
    if sum >= target {
      return;
    }
    var prefix := partial.GetOr([]);
    for i := 0 to |numbers|
      invariant result + FoundFrom(numbers, target, prefix, i) == options + Found(numbers, target, partial)
    {
      result := SubsetSumRound(numbers, target, prefix, i, result);
    }
  }

  /** One round of the `for` loop of `subsetSumBase`: the pushes of the recursive call for `numbers[i]`. */
  method SubsetSumRound(numbers: seq<Item>, target: int, prefix: seq<Item>, i: nat, options: seq<seq<Item>>) returns (result: seq<seq<Item>>)
    requires i < |numbers|
    ensures result + FoundFrom(numbers, target, prefix, i + 1) == options + FoundFrom(numbers, target, prefix, i)
    decreases |numbers|, 0
  {
    var remaining := numbers[i + 1..];
    result := SubsetSumBase(remaining, target, Some(prefix + [numbers[i]]), options);
  }

  /** `subsetSum(numbers, target)`: every subset the search records. */
  method SubsetSum(numbers: seq<Item>, target: int) returns (options: seq<seq<Item>>)
    ensures options == Found(numbers, target, None)
  {
    options := SubsetSumBase(numbers, target, None, []);
  }

  /**
   * `findCombination({ charge, items, orderTotal })`, as written: `None` is `undefined`.
   * `orderTotal` is read and then never used.
   */
  function FindCombination(charge: int, items: seq<Item>, orderTotal: int): (r: Option<seq<Item>>)
    ensures SumCents(items) == charge ==> r == Some(items)
    ensures SumCents(items) != charge && (exists x :: x in items && Cents(x) == charge) ==> r == Some([items[0]])
  {
    var target := charge;
    if SumCents(items) == target then Some(items)
    else
      var valid := ValidItems(items, target);
      ValidItemsSpec(items, target);
      if exists k :: 0 <= k < |valid| && Cents(valid[k]) == target then Some([items[0]])
      else
        var results := Found(valid, target, None);
        if |results| == 1 then Some(results[0]) else None
  }

  /** The first item of exactly `target` cents. */
  function FirstOfCents(items: seq<Item>, target: int): (x: Item)
    requires exists x :: x in items && Cents(x) == target
    ensures x in items && Cents(x) == target
  {
    if Cents(items[0]) == target then items[0] else FirstOfCents(items[1..], target)
  }

  /**
   * `findCombination` as its shortcut evidently intends: when one item alone costs the
   * charge, that item (the first such) is the combination, not whichever item comes first.
   */
  function FindCombinationFixed(charge: int, items: seq<Item>, orderTotal: int): (r: Option<seq<Item>>)
    ensures SumCents(items) == charge ==> r == Some(items)
    ensures SumCents(items) != charge && (exists x :: x in items && Cents(x) == charge) ==>
      r == Some([FirstOfCents(items, charge)])
  {
    var target := charge;
    if SumCents(items) == target then Some(items)
    else if exists x :: x in items && Cents(x) == target then Some([FirstOfCents(items, target)])
    else
      var results := Found(ValidItems(items, target), target, None);
      if |results| == 1 then Some(results[0]) else None
  }
}

/**
 * What the subset search records, proved about `Combination.Found`: every recorded subset
 * sums to the target, it picks items at strictly increasing positions of the sorted list,
 * no partial sum at or above the target is extended, and each such choice of positions is
 * recorded exactly once.
 */
module CombinationProofs {
  import opened Wrappers
  import opened AmazonRecords
  import opened Combination
  import opened Rows

  /** Every subset pushed extends the partial subset it started from and sums to the target. */
  lemma {:induction false} FoundSound(numbers: seq<Item>, target: int, partial: Option<seq<Item>>)
    ensures forall o :: o in Found(numbers, target, partial) ==>
      SumCents(o) == target && |o| >= |partial.GetOr([])| && o[..|partial.GetOr([])|] == partial.GetOr([])
    decreases |numbers|, 1
  {
    var sum := SumCents(partial.GetOr([]));
    if !(sum == target && partial.Some?) && sum < target {
      FoundFromSound(numbers, target, partial.GetOr([]), 0);
    }
  }

  lemma {:induction false} FoundFromSound(numbers: seq<Item>, target: int, prefix: seq<Item>, i: nat)
    requires i <= |numbers|
    ensures forall o :: o in FoundFrom(numbers, target, prefix, i) ==>
      SumCents(o) == target && |o| > |prefix| && o[..|prefix|] == prefix
    decreases |numbers|, 0, |numbers| - i
  {
    if i < |numbers| {
      var p := prefix + [numbers[i]];
      FoundSound(numbers[i + 1..], target, Some(p));
      FoundFromSound(numbers, target, prefix, i + 1);
      forall o | o in Found(numbers[i + 1..], target, Some(p))
        ensures o[..|prefix|] == prefix
      {
        assert o[..|prefix|] == o[..|p|][..|prefix|];
      }
    }
  }

  /** The first call (`partial` undefined) records nothing when the target is not positive. */
  lemma NothingForNonPositiveTarget(numbers: seq<Item>, target: int)
    requires target <= 0
    ensures Found(numbers, target, None) == []
  {
  }

  predicate InRange(numbers: seq<Item>, idx: seq<nat>) {
    forall k :: 0 <= k < |idx| ==> idx[k] < |numbers|
  }

  /** The items at positions `idx`. */
  function Picks(numbers: seq<Item>, idx: seq<nat>): (r: seq<Item>)
    requires InRange(numbers, idx)
    ensures |r| == |idx|
  {
    seq(|idx|, k requires 0 <= k < |idx| => numbers[idx[k]])
  }

  function PicksAll(numbers: seq<Item>, xs: seq<seq<nat>>): seq<seq<Item>>
    requires forall x :: x in xs ==> InRange(numbers, x)
  {
    seq(|xs|, k requires 0 <= k < |xs| => Picks(numbers, xs[k]))
  }

  /** The search of `Found`, on positions: `picked` are the positions chosen so far, `start` the first position still free. */
  ghost function Choices(numbers: seq<Item>, target: int, start: nat, picked: seq<nat>): (r: seq<seq<nat>>)
    requires start <= |numbers| && InRange(numbers, picked)
    ensures forall x :: x in r ==> InRange(numbers, x)
    decreases |numbers| - start, 1
  {
    var s := SumCents(Picks(numbers, picked));
    if s == target then [picked]
    else if s > target then []
    else ChoicesFrom(numbers, target, start, picked, start)
  }

  ghost function ChoicesFrom(numbers: seq<Item>, target: int, start: nat, picked: seq<nat>, j: nat): (r: seq<seq<nat>>)
    requires start <= j <= |numbers| && InRange(numbers, picked)
    ensures forall x :: x in r ==> InRange(numbers, x)
    decreases |numbers| - start, 0, |numbers| - j
  {
    if j == |numbers| then []
    else Choices(numbers, target, j + 1, picked + [j]) + ChoicesFrom(numbers, target, start, picked, j + 1)
  }

  /**
   * `idx` extends `picked` by strictly increasing positions from `start` on, its items sum
   * to the target, and every proper prefix at least as long as `picked` sums below it.
   */
  ghost predicate Extends(numbers: seq<Item>, target: int, start: nat, picked: seq<nat>, idx: seq<nat>)
    requires InRange(numbers, picked)
  {
    && |idx| >= |picked|
    && idx[..|picked|] == picked
    && (forall k :: |picked| <= k < |idx| ==> start <= idx[k] < |numbers|)
    && (forall k1, k2 :: |picked| <= k1 < k2 < |idx| ==> idx[k1] < idx[k2])
    && SumCents(Picks(numbers, idx)) == target
    && (forall m :: |picked| <= m < |idx| ==> SumCents(Picks(numbers, idx[..m])) < target)
  }

  lemma PicksPrefix(numbers: seq<Item>, idx: seq<nat>, m: nat)
    requires InRange(numbers, idx) && m <= |idx|
    ensures InRange(numbers, idx[..m]) && Picks(numbers, idx[..m]) == Picks(numbers, idx)[..m]
  {
  }

  /** Choosing position `j` next: a completion of `picked + [j]` is a completion of `picked` from `j`. */
  lemma ExtendsByNext(numbers: seq<Item>, target: int, j: nat, picked: seq<nat>, idx: seq<nat>)
    requires j < |numbers| && InRange(numbers, picked)
    requires SumCents(Picks(numbers, picked)) < target
    requires Extends(numbers, target, j + 1, picked + [j], idx)
    ensures |idx| > |picked| && idx[|picked|] == j && Extends(numbers, target, j, picked, idx)
  {
    var n := |picked|;
    assert idx[..n] == idx[..n + 1][..n];
    assert idx[n] == (picked + [j])[n];
  }

  /** A completion of `picked` from `j` either takes `j` next or is a completion from `j + 1`. */
  lemma ExtendsCases(numbers: seq<Item>, target: int, j: nat, picked: seq<nat>, idx: seq<nat>)
    requires j < |numbers| && InRange(numbers, picked)
    requires |idx| > |picked| && Extends(numbers, target, j, picked, idx)
    ensures idx[|picked|] == j ==> Extends(numbers, target, j + 1, picked + [j], idx)
    ensures idx[|picked|] != j ==> Extends(numbers, target, j + 1, picked, idx)
  {
    var n := |picked|;
    if idx[n] == j {
      assert idx[..n + 1] == picked + [j];
    }
  }

  lemma {:induction false} ChoicesFromExact(numbers: seq<Item>, target: int, start: nat, picked: seq<nat>, j: nat, idx: seq<nat>)
    requires start <= j <= |numbers| && InRange(numbers, picked)
    requires SumCents(Picks(numbers, picked)) < target
    ensures multiset(ChoicesFrom(numbers, target, start, picked, j))[idx] ==
      if |idx| > |picked| && Extends(numbers, target, j, picked, idx) then 1 else 0
    decreases |numbers| - start, 0, |numbers| - j
  {
    var n := |picked|;
    if j < |numbers| {
      var p := picked + [j];
      ChoicesExact(numbers, target, j + 1, p, idx);
      ChoicesFromExact(numbers, target, start, picked, j + 1, idx);
      var a := Choices(numbers, target, j + 1, p);
      var b := ChoicesFrom(numbers, target, start, picked, j + 1);
      assert multiset(a + b)[idx] == multiset(a)[idx] + multiset(b)[idx];
      if Extends(numbers, target, j + 1, p, idx) {
        ExtendsByNext(numbers, target, j, picked, idx);
      } else if |idx| > n && Extends(numbers, target, j, picked, idx) {
        ExtendsCases(numbers, target, j, picked, idx);
      }
    }
  }

  lemma {:induction false} ChoicesExact(numbers: seq<Item>, target: int, start: nat, picked: seq<nat>, idx: seq<nat>)
    requires start <= |numbers| && InRange(numbers, picked)
    ensures multiset(Choices(numbers, target, start, picked))[idx] ==
      if Extends(numbers, target, start, picked, idx) then 1 else 0
    decreases |numbers| - start, 1
  {
    var n := |picked|;
    var s := SumCents(Picks(numbers, picked));
    if Extends(numbers, target, start, picked, idx) && |idx| > n {
      assert idx[..n] == picked;
      assert SumCents(Picks(numbers, idx[..n])) < target;
      assert s < target;
    }
    if Extends(numbers, target, start, picked, idx) && |idx| == n {
      assert idx == idx[..n];
    }
    if s < target {
      ChoicesFromExact(numbers, target, start, picked, start, idx);
    }
  }

  /** The item-level search and the position-level search record the same subsets, in the same order. */
  lemma {:induction false} FoundIsChoices(numbers: seq<Item>, target: int, start: nat, picked: seq<nat>)
    requires start <= |numbers| && InRange(numbers, picked)
    ensures Found(numbers[start..], target, Some(Picks(numbers, picked))) == PicksAll(numbers, Choices(numbers, target, start, picked))
    decreases |numbers| - start, 1
  {
    var s := SumCents(Picks(numbers, picked));
    if s < target {
      FoundFromIsChoicesFrom(numbers, target, start, picked, start);
    }
  }

  lemma {:induction false} FoundFromIsChoicesFrom(numbers: seq<Item>, target: int, start: nat, picked: seq<nat>, j: nat)
    requires start <= j <= |numbers| && InRange(numbers, picked)
    ensures FoundFrom(numbers[start..], target, Picks(numbers, picked), j - start) == PicksAll(numbers, ChoicesFrom(numbers, target, start, picked, j))
    decreases |numbers| - start, 0, |numbers| - j
  {
    if j < |numbers| {
      var p := picked + [j];
      FoundIsChoices(numbers, target, j + 1, p);
      FoundFromIsChoicesFrom(numbers, target, start, picked, j + 1);
      assert numbers[start..][j - start + 1..] == numbers[j + 1..];
      assert Picks(numbers, picked) + [numbers[start..][j - start]] == Picks(numbers, p);
      var a := Choices(numbers, target, j + 1, p);
      var b := ChoicesFrom(numbers, target, start, picked, j + 1);
      assert PicksAll(numbers, a + b) == PicksAll(numbers, a) + PicksAll(numbers, b);
    }
  }

  predicate Increasing(idx: seq<nat>) {
    forall k1, k2 :: 0 <= k1 < k2 < |idx| ==> idx[k1] < idx[k2]
  }

  /**
   * An increasing, non-empty choice of positions whose items sum to the target and whose
   * proper prefixes all sum below it.
   */
  ghost predicate Completes(numbers: seq<Item>, target: int, idx: seq<nat>)
    requires InRange(numbers, idx)
  {
    && |idx| > 0
    && Increasing(idx)
    && SumCents(Picks(numbers, idx)) == target
    && (forall m :: 0 <= m < |idx| ==> SumCents(Picks(numbers, idx[..m])) < target)
  }

  /** `subsetSum(numbers, target)` records the items at the position lists `Choices(numbers, target, 0, [])`, in order. */
  lemma SubsetSumIsChoices(numbers: seq<Item>, target: int)
    requires target > 0
    ensures Found(numbers, target, None) == PicksAll(numbers, Choices(numbers, target, 0, []))
  {
    FoundFromIsChoicesFrom(numbers, target, 0, [], 0);
    assert FoundFrom(numbers[0..], target, Picks(numbers, []), 0) == FoundFrom(numbers, target, [], 0) by {
      assert Picks(numbers, []) == [];
      assert numbers[0..] == numbers;
    }
    assert Found(numbers, target, None) == FoundFrom(numbers, target, [], 0);
    assert Choices(numbers, target, 0, []) == ChoicesFrom(numbers, target, 0, [], 0) by {
      assert Picks(numbers, []) == [];
    }
  }

  /** Each position list that completes the target is among the choices exactly once; no other is. */
  lemma ChoicesFromScratch(numbers: seq<Item>, target: int, idx: seq<nat>)
    requires target > 0 && InRange(numbers, idx)
    ensures multiset(Choices(numbers, target, 0, []))[idx] == if Completes(numbers, target, idx) then 1 else 0
  {
    assert Picks(numbers, []) == [];
    ChoicesExact(numbers, target, 0, [], idx);
    if |idx| == 0 {
      assert Picks(numbers, idx) == [];
    } else {
      assert idx[..0] == [];
    }
  }

  /**
   * `subsetSum(numbers, target)` records the subsets at the position lists `Choices(numbers,
   * target, 0, [])`, and those are exactly the position lists that complete the target, each
   * exactly once.
   */
  lemma SubsetSumRecordsEachChoiceOnce(numbers: seq<Item>, target: int)
    requires target > 0
    ensures Found(numbers, target, None) == PicksAll(numbers, Choices(numbers, target, 0, []))
    ensures forall idx :: InRange(numbers, idx) ==>
      multiset(Choices(numbers, target, 0, []))[idx] == if Completes(numbers, target, idx) then 1 else 0
  {
    SubsetSumIsChoices(numbers, target);
    forall idx | InRange(numbers, idx)
      ensures multiset(Choices(numbers, target, 0, []))[idx] == if Completes(numbers, target, idx) then 1 else 0
    {
      ChoicesFromScratch(numbers, target, idx);
    }
  }

  lemma {:induction false} PrefixSumBelow(numbers: seq<Item>, idx: seq<nat>, m: nat)
    requires InRange(numbers, idx) && m < |idx|
    requires forall k :: 0 <= k < |numbers| ==> Cents(numbers[k]) > 0
    ensures SumCents(Picks(numbers, idx[..m])) < SumCents(Picks(numbers, idx))
    decreases |idx| - m
  {
    var n := |idx|;
    assert Picks(numbers, idx) == Picks(numbers, idx[..n - 1]) + [numbers[idx[n - 1]]];
    SumCentsAppend(Picks(numbers, idx[..n - 1]), numbers[idx[n - 1]]);
    if m < n - 1 {
      PrefixSumBelow(numbers, idx[..n - 1], m);
      assert idx[..n - 1][..m] == idx[..m];
    }
  }

  /**
   * For items of positive cents and a positive target, every increasing choice of positions
   * of `validItems` summing to the target is found, and found exactly once.
   */
  lemma SubsetSumFindsEverySubsetOnce(numbers: seq<Item>, target: int)
    requires target > 0
    requires forall k :: 0 <= k < |numbers| ==> Cents(numbers[k]) > 0
    ensures forall idx :: InRange(numbers, idx) ==>
      multiset(Choices(numbers, target, 0, []))[idx] ==
        if |idx| > 0 && Increasing(idx) && SumCents(Picks(numbers, idx)) == target then 1 else 0
  {
    SubsetSumRecordsEachChoiceOnce(numbers, target);
    forall idx, m | InRange(numbers, idx) && SumCents(Picks(numbers, idx)) == target && 0 <= m < |idx|
      ensures SumCents(Picks(numbers, idx[..m])) < target
    {
      PrefixSumBelow(numbers, idx, m);
    }
  }

  /** Exactly one recorded subset is returned as it is; none, or several, give `undefined` alike. */
  lemma FindCombinationSearchOutcome(charge: int, items: seq<Item>, orderTotal: int)
    requires SumCents(items) != charge
    requires forall x :: x in items ==> Cents(x) != charge
    ensures var results := Found(ValidItems(items, charge), charge, None);
      FindCombination(charge, items, orderTotal) == if |results| == 1 then Some(results[0]) else None
  {
    ValidItemsSpec(items, charge);
  }

  /** Whatever the search returns sums to the charge. */
  lemma FindCombinationSearchSound(charge: int, items: seq<Item>, orderTotal: int)
    requires forall x :: x in items ==> Cents(x) != charge
    requires FindCombination(charge, items, orderTotal).Some?
    ensures SumCents(FindCombination(charge, items, orderTotal).value) == charge
  {
    ValidItemsSpec(items, charge);
    FoundSound(ValidItems(items, charge), charge, None);
  }

  /** The shortcut as written: items of 500 and 1000 cents and a charge of 1000 cents give the 500-cent item. */
  lemma SingletonShortcutPicksFirstItem()
    ensures var cheap := Item("111-1", "01/02/20", "Cable", "Electronics", "Shop", 500, 500, Day(0), None);
      var dear := Item("111-1", "01/02/20", "Lamp", "Home", "Shop", 1000, 1000, Day(0), None);
      FindCombination(1000, [cheap, dear], 1500) == Some([cheap])
      && SumCents([cheap]) != 1000
  {
    var cheap := Item("111-1", "01/02/20", "Cable", "Electronics", "Shop", 500, 500, Day(0), None);
    var dear := Item("111-1", "01/02/20", "Lamp", "Home", "Shop", 1000, 1000, Day(0), None);
    assert [cheap, dear][..1] == [cheap];
    assert [cheap][..0] == [];
    assert SumCents([cheap]) == 500;
    assert SumCents([cheap, dear]) == 1500;
    assert dear in [cheap, dear] && Cents(dear) == 1000;
  }

  /** Whatever the corrected `findCombination` returns costs exactly the charge. */
  lemma FindCombinationFixedSound(charge: int, items: seq<Item>, orderTotal: int)
    requires FindCombinationFixed(charge, items, orderTotal).Some?
    ensures SumCents(FindCombinationFixed(charge, items, orderTotal).value) == charge
  {
    if SumCents(items) != charge {
      if exists x :: x in items && Cents(x) == charge {
        var x := FirstOfCents(items, charge);
        assert [x][..0] == [];
      } else {
        FoundSound(ValidItems(items, charge), charge, None);
      }
    }
  }
}
