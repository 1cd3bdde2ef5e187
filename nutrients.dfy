/**
 * Nutrient vectors and their aggregation (calculate_total_nutrients in db_config.py).
 * Floating-point values are modelled as mathematical reals.
 */
module Nutrients {

  /**
   * The four tracked fields kcal, protein_g, fat_g and carbs_g. On a food they are
   * per 100 g; on a recipe or a meal they are absolute totals.
   */
  datatype NutrientVector = NutrientVector(kcal: real, protein: real, fat: real, carbs: real)

  const Zero := NutrientVector(0.0, 0.0, 0.0, 0.0)

  predicate IsNonNegative(v: NutrientVector) {
    v.kcal >= 0.0 && v.protein >= 0.0 && v.fat >= 0.0 && v.carbs >= 0.0
  }

  function Add(a: NutrientVector, b: NutrientVector): NutrientVector {
    NutrientVector(a.kcal + b.kcal, a.protein + b.protein, a.fat + b.fat, a.carbs + b.carbs)
  }

  /** What `grams` grams contribute: every field times grams / 100. */
  function Scale(v: NutrientVector, grams: real): (r: NutrientVector)
    ensures grams == 100.0 ==> r == v
    ensures IsNonNegative(v) && grams >= 0.0 ==> IsNonNegative(r)
  {
    NutrientVector(v.kcal * grams / 100.0, v.protein * grams / 100.0,
                   v.fat * grams / 100.0, v.carbs * grams / 100.0)
  }

  /** One item of an aggregation: per-100 g nutrients and a quantity in grams. */
  datatype Portion = Portion(nutrients: NutrientVector, quantity: real)

  predicate PortionIsNonNegative(p: Portion) {
    IsNonNegative(p.nutrients) && p.quantity >= 0.0
  }

  /**
   * The total of a list of portions, folded from the left as the source's loop does:
   * zero on every field, then each portion adds nutrients * quantity / 100.
   */
  function Aggregate(items: seq<Portion>): NutrientVector {
    if items == [] then Zero
    else
      var last := items[|items| - 1];
      Add(Aggregate(items[..|items| - 1]), Scale(last.nutrients, last.quantity))
  }

  /** Non-negative nutrients at non-negative quantities aggregate to a non-negative vector. */
  lemma {:induction false} AggregateNonNegative(items: seq<Portion>)
    requires forall i :: 0 <= i < |items| ==> PortionIsNonNegative(items[i])
    ensures IsNonNegative(Aggregate(items))
  {
    if items != [] {
      var init := items[..|items| - 1];
      assert forall i :: 0 <= i < |init| ==> init[i] == items[i];
      AggregateNonNegative(init);
    }
  }

  /** The loop of calculate_total_nutrients: starts at zero and adds each item's scaled fields. */
  method CalculateTotalNutrients(items: seq<Portion>) returns (total: NutrientVector)
    ensures total == Aggregate(items)
    ensures items == [] ==> total == Zero
  {
    total := Zero;
    for i := 0 to |items|
      invariant total == Aggregate(items[..i])
    {
      var nutrients, qty := items[i].nutrients, items[i].quantity;
      total := NutrientVector(total.kcal + nutrients.kcal * qty / 100.0,
                              total.protein + nutrients.protein * qty / 100.0,
                              total.fat + nutrients.fat * qty / 100.0,
                              total.carbs + nutrients.carbs * qty / 100.0);
      assert items[..i + 1][..i] == items[..i];
    }
    assert items[..|items|] == items;
  }

  /** A single portion aggregates to its own scaled nutrients, field by field. */
  lemma AggregateOfOne(v: NutrientVector, grams: real)
    ensures var t := Aggregate([Portion(v, grams)]);
      t.kcal == v.kcal * grams / 100.0 && t.protein == v.protein * grams / 100.0 &&
      t.fat == v.fat * grams / 100.0 && t.carbs == v.carbs * grams / 100.0
  {
    assert [Portion(v, grams)][..0] == [];
  }

  lemma AddAssociative(x: NutrientVector, y: NutrientVector, z: NutrientVector)
    ensures Add(Add(x, y), z) == Add(x, Add(y, z))
  {
  }

  /** Aggregating a concatenation adds the two aggregates. */
  lemma {:induction false} AggregateAppend(a: seq<Portion>, b: seq<Portion>)
    ensures Aggregate(a + b) == Add(Aggregate(a), Aggregate(b))
  {
    if b == [] {
      assert a + b == a;
    } else {
      var b', y := b[..|b| - 1], b[|b| - 1];
      AggregateAppend(a, b');
      assert (a + b)[..|a + b| - 1] == a + b';
      assert (a + b)[|a + b| - 1] == y;
      AddAssociative(Aggregate(a), Aggregate(b'), Scale(y.nutrients, y.quantity));
    }
  }

  /** Removing one occurrence of `x` from two lists with equal multisets keeps them equal. */
  lemma RemoveOccurrence<T>(a: seq<T>, x: T, b: seq<T>, j: nat)
    requires j < |b| && b[j] == x
    requires multiset(a + [x]) == multiset(b)
    ensures multiset(a) == multiset(b[..j] + b[j + 1..])
  {
    assert b == b[..j] + [x] + b[j + 1..];
    assert multiset(a) == multiset(a + [x]) - multiset{x};
    assert multiset(b[..j] + b[j + 1..]) == multiset(b) - multiset{x};
  }

  lemma AddSwapLast(x: NutrientVector, y: NutrientVector, z: NutrientVector)
    ensures Add(Add(x, y), z) == Add(Add(x, z), y)
  {
  }

  /** Aggregation does not depend on the order of the items. */
  lemma {:induction false} AggregatePermutation(a: seq<Portion>, b: seq<Portion>)
    requires multiset(a) == multiset(b)
    ensures Aggregate(a) == Aggregate(b)
    decreases |a|
  {
    if a == [] {
      assert |multiset(b)| == 0;
    } else {
      var a', x := a[..|a| - 1], a[|a| - 1];
      assert a == a' + [x];
      assert x in multiset(b);
      var j :| 0 <= j < |b| && b[j] == x;
      var front, back := b[..j], b[j + 1..];
      assert b == (front + [x]) + back;
      RemoveOccurrence(a', x, b, j);
      AggregatePermutation(a', front + back);
      AggregateAppend(a', [x]);
      AggregateAppend(front, back);
      AggregateAppend(front + [x], back);
      AggregateAppend(front, [x]);
      AddSwapLast(Aggregate(front), Aggregate(back), Aggregate([x]));
    }
  }

  /** The plain sum of a list of vectors. */
  function Sum(vs: seq<NutrientVector>): NutrientVector {
    if vs == [] then Zero else Add(Sum(vs[..|vs| - 1]), vs[|vs| - 1])
  }

  /** Each vector counted as one serving of 100 g. */
  function Servings(vs: seq<NutrientVector>): (ps: seq<Portion>)
    ensures |ps| == |vs| && forall i :: 0 <= i < |vs| ==> ps[i] == Portion(vs[i], 100.0)
  {
    seq(|vs|, i requires 0 <= i < |vs| => Portion(vs[i], 100.0))
  }

  /** Counting absolute totals at quantity 100 leaves them unscaled: their aggregate is their sum. */
  lemma {:induction false} ServingsAreUnscaled(vs: seq<NutrientVector>)
    ensures Aggregate(Servings(vs)) == Sum(vs)
  {
    if vs != [] {
      var vs' := vs[..|vs| - 1];
      ServingsAreUnscaled(vs');
      assert Servings(vs)[..|vs| - 1] == Servings(vs');
    }
  }
}
