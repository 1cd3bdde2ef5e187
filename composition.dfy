/**
 * What a recipe or a meal stores when its names resolve: the exact item set, the
 * cached total and its decomposition, and the ingredient view that reads a recipe back.
 */
module Composition {
  import opened Nutrients
  import opened Dicts
  import opened Validation
  import opened Tables

  /** Food rows are non-negative per 100 g. */
  ghost predicate FoodsNonNegative(foods: map<int, FoodRow>) {
    forall id :: id in foods ==> IsNonNegative(foods[id].nutrients)
  }

  ghost predicate RecipesNonNegative(recipes: map<int, RecipeRow>) {
    forall id :: id in recipes ==> IsNonNegative(recipes[id].nutrients)
  }

  /**
   * The items a recipe stores are exactly its ingredient dict, keyed by food id: one item
   * per ingredient, each with the ingredient's grams, and no other item.
   */
  lemma RecipeItemsExact(foods: map<int, FoodRow>, ing: IngredientDict)
    requires UniqueNames(FoodNames(foods)) && IngredientsResolve(foods, ing)
    ensures var items := RecipeItemsFor(foods, ing);
      && |items| == |ing|
      && (forall i :: 0 <= i < |ing| ==>
            IdOf(FoodNames(foods), ing[i].0) in items && items[IdOf(FoodNames(foods), ing[i].0)] == ing[i].1)
      && (forall fid :: fid in items ==>
            fid in foods && exists i :: 0 <= i < |ing| && ing[i].0 == foods[fid].name && items[fid] == ing[i].1)
  {
    var names := FoodNames(foods);
    var pairs := ItemPairs(IngredientLines(foods, ing));
    var items := DictOf(pairs);
    RecipeItemKeysDistinct(foods, ing);
    DictOfSize(pairs);
    forall i | 0 <= i < |ing|
      ensures IdOf(names, ing[i].0) in items && items[IdOf(names, ing[i].0)] == ing[i].1
    {
      DictOfAt(pairs, i);
    }
    forall fid | fid in items
      ensures fid in foods && exists i :: 0 <= i < |ing| && ing[i].0 == foods[fid].name && items[fid] == ing[i].1
    {
      var i := DictOfFrom(pairs, fid);
      assert ing[i].0 == foods[fid].name;
    }
  }

  /**
   * Distinct ingredient names resolve to distinct foods, so the (recipe_id, food_id)
   * primary key of the recipe items never collides.
   */
  lemma RecipeItemKeysDistinct(foods: map<int, FoodRow>, ing: IngredientDict)
    requires UniqueNames(FoodNames(foods)) && IngredientsResolve(foods, ing)
    ensures KeysDistinct(ItemPairs(IngredientLines(foods, ing)))
  {
    var pairs := ItemPairs(IngredientLines(foods, ing));
    forall i, j | 0 <= i < j < |pairs| ensures pairs[i].0 != pairs[j].0 {
      assert ing[i].0 != ing[j].0;
      assert FoodNames(foods)[pairs[i].0] == ing[i].0;
      assert FoodNames(foods)[pairs[j].0] == ing[j].0;
    }
  }

  /** A recipe's cached total is non-negative when its quantities are positive. */
  lemma RecipeTotalNonNegative(foods: map<int, FoodRow>, ing: IngredientDict)
    requires FoodsNonNegative(foods) && IngredientsResolve(foods, ing)
    requires forall i :: 0 <= i < |ing| ==> ing[i].1 > 0.0
    ensures IsNonNegative(RecipeTotal(foods, ing))
  {
    AggregateNonNegative(PortionsOf(IngredientLines(foods, ing)));
  }

  /** An ingredient as get_recipe_with_ingredients lists it. */
  datatype IngredientLine = IngredientLine(quantity: real, nutrients: NutrientVector)

  /** A recipe's items joined with their foods and keyed by food name. */
  function IngredientView(foods: map<int, FoodRow>, items: map<int, real>): (view: map<string, IngredientLine>)
    requires UniqueNames(FoodNames(foods))
    ensures forall fid :: fid in items && fid in foods ==>
      foods[fid].name in view && view[foods[fid].name] == IngredientLine(items[fid], foods[fid].nutrients)
    ensures forall n :: n in view ==> exists fid :: fid in items && fid in foods && foods[fid].name == n
  {
    assert forall a, b :: a in foods && b in foods && foods[a].name == foods[b].name ==> a == b by {
      forall a, b | a in foods && b in foods && foods[a].name == foods[b].name ensures a == b {
        assert FoodNames(foods)[a] == FoodNames(foods)[b];
      }
    }
    map fid | fid in items && fid in foods :: foods[fid].name := IngredientLine(items[fid], foods[fid].nutrients)
  }

  /**
   * Reading a stored recipe back gives its ingredient dict: the same names, each with
   * the grams it was stored with and its food's nutrients.
   */
  lemma {:induction false} RecipeViewRoundTrip(foods: map<int, FoodRow>, ing: IngredientDict)
    requires UniqueNames(FoodNames(foods)) && IngredientsResolve(foods, ing)
    ensures var view := IngredientView(foods, RecipeItemsFor(foods, ing));
      && (forall n :: n in view <==> n in KeysOf(ing))
      && forall i :: 0 <= i < |ing| ==>
           view[ing[i].0] == IngredientLine(ing[i].1, foods[IdOf(FoodNames(foods), ing[i].0)].nutrients)
  {
    var view := IngredientView(foods, RecipeItemsFor(foods, ing));
    var keys := KeysOf(ing);
    forall i | 0 <= i < |ing|
      ensures ing[i].0 in view
      ensures view[ing[i].0] == IngredientLine(ing[i].1, foods[IdOf(FoodNames(foods), ing[i].0)].nutrients)
    {
      ViewHasIngredient(foods, ing, i);
    }
    forall n | n in view ensures n in keys {
      var i := ViewKeyIsIngredient(foods, ing, n);
      assert keys[i] == n;
    }
  }

  /** Each ingredient of a stored recipe appears in its view with its grams. */
  lemma ViewHasIngredient(foods: map<int, FoodRow>, ing: IngredientDict, i: int)
    requires UniqueNames(FoodNames(foods)) && IngredientsResolve(foods, ing) && 0 <= i < |ing|
    ensures var view := IngredientView(foods, RecipeItemsFor(foods, ing));
      ing[i].0 in view &&
      view[ing[i].0] == IngredientLine(ing[i].1, foods[IdOf(FoodNames(foods), ing[i].0)].nutrients)
  {
    var pairs := ItemPairs(IngredientLines(foods, ing));
    RecipeItemKeysDistinct(foods, ing);
    DictOfAt(pairs, i);
  }

  /** Each name in a stored recipe's view is one of its ingredient names. */
  lemma ViewKeyIsIngredient(foods: map<int, FoodRow>, ing: IngredientDict, n: string) returns (i: int)
    requires UniqueNames(FoodNames(foods)) && IngredientsResolve(foods, ing)
    requires n in IngredientView(foods, RecipeItemsFor(foods, ing))
    ensures 0 <= i < |ing| && ing[i].0 == n
  {
    var pairs := ItemPairs(IngredientLines(foods, ing));
    var fid :| fid in DictOf(pairs) && fid in foods && foods[fid].name == n;
    i := DictOfFrom(pairs, fid);
  }

  /** The item a meal's k-th recipe contributes: the recipe at quantity 100. */
  lemma MealRecipePairAt(recipes: map<int, RecipeRow>, foods: map<int, FoodRow>, p: MealPayload, k: int)
    requires MealResolves(recipes, foods, p)
    requires 0 <= k < |p.recipes|
    ensures var pairs := ItemPairs(MealLines(recipes, foods, p));
      |pairs| == |p.recipes| + |p.foods| &&
      pairs[k] == (Component(RecipeComponent, IdOf(RecipeNames(recipes), p.recipes[k])), 100.0)
  {
  }

  /** The item a meal's k-th food entry contributes, after its recipes: the food at its grams. */
  lemma MealFoodPairAt(recipes: map<int, RecipeRow>, foods: map<int, FoodRow>, p: MealPayload, k: int)
    requires MealResolves(recipes, foods, p)
    requires 0 <= k < |p.foods|
    ensures var pairs := ItemPairs(MealLines(recipes, foods, p));
      var n := OnlyKey(p.foods[k]);
      |pairs| == |p.recipes| + |p.foods| &&
      pairs[|p.recipes| + k] == (Component(FoodComponent, IdOf(FoodNames(foods), n)), p.foods[k][n])
  {
    var rs: seq<(Component, Portion)> := RecipeServingLines(recipes, p.recipes);
    var fs: seq<(Component, Portion)> := FoodEntryLines(foods, p.foods);
    assert (rs + fs)[|rs| + k] == fs[k];
  }

  /** Meal items of two differently named recipes have different components. */
  lemma RecipePairsDiffer(recipes: map<int, RecipeRow>, foods: map<int, FoodRow>, p: MealPayload, i: int, j: int)
    requires MealResolves(recipes, foods, p)
    requires 0 <= i < |p.recipes| && 0 <= j < |p.recipes| && p.recipes[i] != p.recipes[j]
    ensures var pairs := ItemPairs(MealLines(recipes, foods, p)); pairs[i].0 != pairs[j].0
  {
    MealRecipePairAt(recipes, foods, p, i);
    MealRecipePairAt(recipes, foods, p, j);
  }

  /** Meal items of two differently named food entries have different components. */
  lemma FoodPairsDiffer(recipes: map<int, RecipeRow>, foods: map<int, FoodRow>, p: MealPayload, i: int, j: int)
    requires MealResolves(recipes, foods, p)
    requires 0 <= i < |p.foods| && 0 <= j < |p.foods|
    requires FoodEntryNames(p.foods)[i] != FoodEntryNames(p.foods)[j]
    ensures var pairs := ItemPairs(MealLines(recipes, foods, p));
      pairs[|p.recipes| + i].0 != pairs[|p.recipes| + j].0
  {
    MealFoodPairAt(recipes, foods, p, i);
    MealFoodPairAt(recipes, foods, p, j);
  }

  /** A recipe's meal item and a food's meal item never share a component. */
  lemma KindsDiffer(recipes: map<int, RecipeRow>, foods: map<int, FoodRow>, p: MealPayload, i: int, j: int)
    requires MealResolves(recipes, foods, p)
    requires 0 <= i < |p.recipes| && 0 <= j < |p.foods|
    ensures var pairs := ItemPairs(MealLines(recipes, foods, p));
      pairs[i].0 != pairs[|p.recipes| + j].0
  {
    MealRecipePairAt(recipes, foods, p, i);
    MealFoodPairAt(recipes, foods, p, j);
  }

  /**
   * Two meal components collide exactly when a recipe name or a food name is repeated:
   * the meal_items primary key then rejects the second item.
   */
  lemma MealComponentsDistinct(recipes: map<int, RecipeRow>, foods: map<int, FoodRow>, p: MealPayload)
    requires UniqueNames(RecipeNames(recipes)) && UniqueNames(FoodNames(foods))
    requires MealResolves(recipes, foods, p)
    ensures KeysDistinct(ItemPairs(MealLines(recipes, foods, p))) <==>
            Distinct(p.recipes) && Distinct(FoodEntryNames(p.foods))
  {
    if KeysDistinct(ItemPairs(MealLines(recipes, foods, p))) {
      DistinctComponentsHaveDistinctNames(recipes, foods, p);
    }
    if Distinct(p.recipes) && Distinct(FoodEntryNames(p.foods)) {
      DistinctNamesHaveDistinctComponents(recipes, foods, p);
    }
  }

  lemma DistinctComponentsHaveDistinctNames(recipes: map<int, RecipeRow>, foods: map<int, FoodRow>, p: MealPayload)
    requires MealResolves(recipes, foods, p)
    requires KeysDistinct(ItemPairs(MealLines(recipes, foods, p)))
    ensures Distinct(p.recipes) && Distinct(FoodEntryNames(p.foods))
  {
    var names := FoodEntryNames(p.foods);
    forall i, j | 0 <= i < j < |p.recipes| ensures p.recipes[i] != p.recipes[j] {
      MealRecipePairAt(recipes, foods, p, i);
      MealRecipePairAt(recipes, foods, p, j);
    }
    forall i, j | 0 <= i < j < |names| ensures names[i] != names[j] {
      MealFoodPairAt(recipes, foods, p, i);
      MealFoodPairAt(recipes, foods, p, j);
    }
  }

  lemma DistinctNamesHaveDistinctComponents(recipes: map<int, RecipeRow>, foods: map<int, FoodRow>, p: MealPayload)
    requires MealResolves(recipes, foods, p)
    requires Distinct(p.recipes) && Distinct(FoodEntryNames(p.foods))
    ensures KeysDistinct(ItemPairs(MealLines(recipes, foods, p)))
  {
    var pairs := ItemPairs(MealLines(recipes, foods, p));
    var nr := |p.recipes|;
    forall i, j | 0 <= i < j < |pairs| ensures pairs[i].0 != pairs[j].0 {
      if j < nr {
        RecipePairsDiffer(recipes, foods, p, i, j);
      } else if nr <= i {
        FoodPairsDiffer(recipes, foods, p, i - nr, j - nr);
      } else {
        KindsDiffer(recipes, foods, p, i, j - nr);
      }
    }
  }

  /**
   * The items a meal stores when its components are distinct: each recipe at quantity
   * 100, each food at its grams, and nothing else.
   */
  lemma MealItemsExact(recipes: map<int, RecipeRow>, foods: map<int, FoodRow>, p: MealPayload)
    requires UniqueNames(RecipeNames(recipes)) && UniqueNames(FoodNames(foods))
    requires MealResolves(recipes, foods, p)
    requires Distinct(p.recipes) && Distinct(FoodEntryNames(p.foods))
    ensures var items := MealItemsFor(recipes, foods, p);
      && |items| == |p.recipes| + |p.foods|
      && (forall i :: 0 <= i < |p.recipes| ==>
            var c := Component(RecipeComponent, IdOf(RecipeNames(recipes), p.recipes[i]));
            c in items && items[c] == 100.0)
      && (forall i :: 0 <= i < |p.foods| ==>
            var n := OnlyKey(p.foods[i]);
            var c := Component(FoodComponent, IdOf(FoodNames(foods), n));
            c in items && items[c] == p.foods[i][n])
  {
    var pairs := ItemPairs(MealLines(recipes, foods, p));
    var nr := |p.recipes|;
    MealComponentsDistinct(recipes, foods, p);
    DictOfSize(pairs);
    forall i | 0 <= i < nr
      ensures var c := Component(RecipeComponent, IdOf(RecipeNames(recipes), p.recipes[i]));
        c in DictOf(pairs) && DictOf(pairs)[c] == 100.0
    {
      MealRecipePairAt(recipes, foods, p, i);
      DictOfAt(pairs, i);
    }
    forall i | 0 <= i < |p.foods|
      ensures var n := OnlyKey(p.foods[i]);
        var c := Component(FoodComponent, IdOf(FoodNames(foods), n));
        c in DictOf(pairs) && DictOf(pairs)[c] == p.foods[i][n]
    {
      MealFoodPairAt(recipes, foods, p, i);
      DictOfAt(pairs, nr + i);
    }
  }

  /**
   * Every stored meal item is well-formed: a recipe component names a recipe and has
   * quantity 100, a food component names a food and has its positive grams.
   */
  lemma MealItemsWellFormed(recipes: map<int, RecipeRow>, foods: map<int, FoodRow>, p: MealPayload)
    requires MealResolves(recipes, foods, p)
    ensures var items := MealItemsFor(recipes, foods, p);
      forall c :: c in items ==>
        items[c] > 0.0 &&
        (c.kind == RecipeComponent ==> c.id in recipes && items[c] == 100.0) &&
        (c.kind == FoodComponent ==> c.id in foods)
  {
    var pairs := ItemPairs(MealLines(recipes, foods, p));
    forall c | c in DictOf(pairs)
      ensures DictOf(pairs)[c] > 0.0
      ensures c.kind == RecipeComponent ==> c.id in recipes && DictOf(pairs)[c] == 100.0
      ensures c.kind == FoodComponent ==> c.id in foods
    {
      var k := DictOfFrom(pairs, c);
      if k < |p.recipes| {
        MealRecipePairAt(recipes, foods, p, k);
      } else {
        MealFoodPairAt(recipes, foods, p, k - |p.recipes|);
        assert FoodEntryIsValid(p.foods[k - |p.recipes|]);
      }
    }
  }

  /** The recipe totals of a meal's named recipes, in order. */
  ghost function ServedRecipeTotals(recipes: map<int, RecipeRow>, names: seq<string>): (vs: seq<NutrientVector>)
    requires FirstUnnamed(RecipeNames(recipes), names) == |names|
    ensures |vs| == |names|
  {
    seq(|names|, i requires 0 <= i < |names| => recipes[IdOf(RecipeNames(recipes), names[i])].nutrients)
  }

  lemma PortionsOfAppend<K>(a: seq<(K, Portion)>, b: seq<(K, Portion)>)
    ensures PortionsOf(a + b) == PortionsOf(a) + PortionsOf(b)
  {
    assert forall i :: 0 <= i < |a + b| ==> PortionsOf(a + b)[i] == (PortionsOf(a) + PortionsOf(b))[i];
  }

  lemma RecipeServingsAreServings(recipes: map<int, RecipeRow>, names: seq<string>)
    requires FirstUnnamed(RecipeNames(recipes), names) == |names|
    ensures PortionsOf(RecipeServingLines(recipes, names)) == Servings(ServedRecipeTotals(recipes, names))
  {
  }

  /**
   * A meal's total is the plain sum of its recipes' cached totals (counted at quantity
   * 100, so unscaled) plus the scaled nutrients of its food entries.
   */
  lemma MealTotalSplits(recipes: map<int, RecipeRow>, foods: map<int, FoodRow>, p: MealPayload)
    requires MealResolves(recipes, foods, p)
    ensures MealTotal(recipes, foods, p) ==
      Add(Sum(ServedRecipeTotals(recipes, p.recipes)), Aggregate(PortionsOf(FoodEntryLines(foods, p.foods))))
  {
    var rs: seq<(Component, Portion)> := RecipeServingLines(recipes, p.recipes);
    var fs: seq<(Component, Portion)> := FoodEntryLines(foods, p.foods);
    PortionsOfAppend(rs, fs);
    RecipeServingsAreServings(recipes, p.recipes);
    AggregateAppend(PortionsOf(rs), PortionsOf(fs));
    ServingsAreUnscaled(ServedRecipeTotals(recipes, p.recipes));
  }

  /** A meal's cached total is non-negative. */
  lemma MealTotalNonNegative(recipes: map<int, RecipeRow>, foods: map<int, FoodRow>, p: MealPayload)
    requires RecipesNonNegative(recipes) && FoodsNonNegative(foods) && MealResolves(recipes, foods, p)
    ensures IsNonNegative(MealTotal(recipes, foods, p))
  {
    var rs: seq<(Component, Portion)> := RecipeServingLines(recipes, p.recipes);
    var fs: seq<(Component, Portion)> := FoodEntryLines(foods, p.foods);
    var ps := PortionsOf(rs + fs);
    forall i | 0 <= i < |ps| ensures PortionIsNonNegative(ps[i]) {
      if i >= |rs| {
        assert (rs + fs)[i] == fs[i - |rs|];
        assert FoodEntryIsValid(p.foods[i - |rs|]);
      }
    }
    AggregateNonNegative(ps);
  }
}
