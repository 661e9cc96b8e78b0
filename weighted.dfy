/** `pickWeighted`: inverse-CDF selection over weighted items, in input order.
    Weights are exact reals here; the double rounding of the sums is not modelled. */
module Weighted {
  import opened Maybe
  import opened Seed
  import opened Mulberry

  datatype Item<T> = Item(value: T, weight: real)

  /** Sum of the first `n` weights, folded from the left as `reduce` does. */
  function Prefix<T>(items: seq<Item<T>>, n: nat): real
    requires n <= |items|
  {
    if n == 0 then 0.0 else Prefix(items, n - 1) + items[n - 1].weight
  }

  /** The cumulative weight up to and including item `j`. */
  function Through<T>(items: seq<Item<T>>, j: nat): real
    requires j < |items|
  {
    Prefix(items, j + 1)
  }

  function Total<T>(items: seq<Item<T>>): real {
    Prefix(items, |items|)
  }

  /** A positive total needs at least one item. */
  lemma {:induction false} PositiveTotalNonEmpty<T>(items: seq<Item<T>>)
    requires Total(items) > 0.0
    ensures |items| > 0
  {
  }

  /** The first item whose cumulative weight reaches `target`, scanning from `k`;
      the last item when none does. */
  function IndexFrom<T>(items: seq<Item<T>>, target: real, k: nat): (i: nat)
    requires k < |items|
    requires forall j :: 0 <= j < k ==> Through(items, j) < target
    ensures k <= i < |items|
    ensures forall j :: 0 <= j < i ==> Through(items, j) < target
    ensures target <= Through(items, i) || i == |items| - 1
    decreases |items| - k
  {
    if target <= Through(items, k) || k == |items| - 1 then k
    else IndexFrom(items, target, k + 1)
  }

  /** The index `pickWeighted` selects for `target = float() * total`. */
  function WeightedIndex<T>(items: seq<Item<T>>, target: real): (i: nat)
    requires |items| > 0
    ensures i < |items|
    ensures forall j :: 0 <= j < i ==> Through(items, j) < target
    ensures target <= Through(items, i) || i == |items| - 1
  {
    IndexFrom(items, target, 0)
  }

  /** With a positive total and a draw in [0, 1) some item's cumulative weight
      always reaches the target, so the fall-through return is unreachable. */
  lemma {:induction false} NoFallThrough<T>(items: seq<Item<T>>, u: real)
    requires Total(items) > 0.0
    requires 0.0 <= u < 1.0
    ensures |items| > 0
    ensures u * Total(items) <= Through(items, WeightedIndex(items, u * Total(items)))
  {
    var total := Total(items);
    var i := WeightedIndex(items, u * total);
    assert u * total < total;
    assert Through(items, |items| - 1) == total;
  }

  /** The characterisation of `WeightedIndex` singles out one index. */
  lemma {:induction false} WeightedIndexUnique<T>(items: seq<Item<T>>, target: real, i: nat)
    requires i < |items|
    requires forall j :: 0 <= j < i ==> Through(items, j) < target
    requires target <= Through(items, i) || i == |items| - 1
    ensures WeightedIndex(items, target) == i
  {
    var w := WeightedIndex(items, target);
  }

  /** An item of weight zero after the first is never selected. */
  lemma {:induction false} ZeroWeightSkipped<T>(items: seq<Item<T>>, u: real, i: nat)
    requires Total(items) > 0.0
    requires 0.0 <= u < 1.0
    requires 0 < i < |items| && items[i].weight == 0.0
    ensures WeightedIndex(items, u * Total(items)) != i
  {
    NoFallThrough(items, u);
    assert Through(items, i) == Through(items, i - 1);
  }

  /** Weights [1, 0] always give the first item. */
  lemma {:induction false} FirstOfOneZero<T>(a: T, b: T, u: real)
    requires 0.0 <= u < 1.0
    ensures Total([Item(a, 1.0), Item(b, 0.0)]) == 1.0
    ensures WeightedIndex([Item(a, 1.0), Item(b, 0.0)], u) == 0
  {
    var items := [Item(a, 1.0), Item(b, 0.0)];
    assert Prefix(items, 1) == 1.0;
    assert Prefix(items, 2) == 1.0;
    WeightedIndexUnique(items, u, 0);
  }

  /** The sum `reduce` computes. */
  method SumWeights<T>(items: seq<Item<T>>) returns (total: real)
    ensures total == Total(items)
  {
    total := 0.0;
    for k := 0 to |items|
      invariant total == Prefix(items, k)
    {
      total := total + items[k].weight;
    }
  }

  /** `pickWeighted(rng, items)`: a total that is not positive throws before
      drawing; otherwise one draw scaled by the total selects the item. */
  method PickWeighted<T>(rng: Rng, items: seq<Item<T>>) returns (r: Result<T>)
    modifies rng
    ensures Total(items) <= 0.0 ==>
              r == Err("pickWeighted requires positive total weight") && rng.t == old(rng.t)
    ensures Total(items) > 0.0 ==>
              && |items| > 0
              && r == Ok(items[WeightedIndex(items, Unit(Draw(old(rng.t))) * Total(items))].value)
              && rng.t == Step(old(rng.t))
  {
    var total := SumWeights(items);
    if !(total > 0.0) {
      return Err("pickWeighted requires positive total weight");
    }
    PositiveTotalNonEmpty(items);
    var f := rng.Float();
    var target := f * total;
    var rest := target;
    var i := 0;
    // The source also compares on the last item, but both outcomes of that
    // comparison return the last item, so the scan stops one short of it.
    while i < |items| - 1
      invariant 0 <= i <= |items| - 1
      invariant rest == target - Prefix(items, i)
      invariant forall j :: 0 <= j < i ==> Through(items, j) < target
    {
      rest := rest - items[i].weight;
      if rest <= 0.0 {
        WeightedIndexUnique(items, target, i);
        return Ok(items[i].value);
      }
      i := i + 1;
    }
    WeightedIndexUnique(items, target, |items| - 1);
    return Ok(items[|items| - 1].value);
  }
}
