/**
 * The name lookups create_recipe, update_recipe, create_meal and update_meal run before
 * they write anything: each name is looked up in turn and the first unknown one aborts.
 */
module Resolve {
  import opened Wrappers
  import opened Nutrients
  import opened Dicts
  import opened Validation
  import opened Tables

  /** The error the ingredient lookups of a recipe raise, if any. */
  ghost function IngredientsError(foods: map<int, FoodRow>, ing: seq<(string, real)>): (e: Option<StoreError>)
    ensures e.None? <==> IngredientsResolve(foods, ing)
    ensures e.Some? ==> exists i :: 0 <= i < |ing| && e.value == UnknownFood(ing[i].0) && !Named(FoodNames(foods), ing[i].0)
  {
    var k := FirstUnnamed(FoodNames(foods), KeysOf(ing));
    if k < |ing| then Some(UnknownFood(ing[k].0)) else None
  }

  /** The error the name lookups of a meal raise, if any: recipes are looked up first. */
  ghost function MealLookupError(recipes: map<int, RecipeRow>, foods: map<int, FoodRow>, p: MealPayload): (e: Option<StoreError>)
    requires MealError(p).None?
    ensures e.None? <==> MealResolves(recipes, foods, p)
    ensures e.Some? && e.value.UnknownRecipe? ==>
      exists i :: 0 <= i < |p.recipes| && e.value.name == p.recipes[i] && !Named(RecipeNames(recipes), p.recipes[i])
    ensures e.Some? && e.value.UnknownFood? ==>
      (forall i :: 0 <= i < |p.recipes| ==> Named(RecipeNames(recipes), p.recipes[i])) &&
      exists i :: 0 <= i < |p.foods| && e.value.name == OnlyKey(p.foods[i]) && !Named(FoodNames(foods), OnlyKey(p.foods[i]))
    ensures e.Some? ==> e.value.UnknownRecipe? || e.value.UnknownFood?
  {
    var kr := FirstUnnamed(RecipeNames(recipes), p.recipes);
    var names := FoodEntryNames(p.foods);
    var kf := FirstUnnamed(FoodNames(foods), names);
    if kr < |p.recipes| then Some(UnknownRecipe(p.recipes[kr]))
    else if kf < |p.foods| then Some(UnknownFood(names[kf]))
    else None
  }

  /** All names before `i` resolve and the i-th does not: `i` is the first unknown name. */
  lemma FirstUnnamedAt(names: map<int, string>, ns: seq<string>, i: int)
    requires 0 <= i <= |ns|
    requires forall j :: 0 <= j < i ==> Named(names, ns[j])
    requires i < |ns| ==> !Named(names, ns[i])
    ensures FirstUnnamed(names, ns) == i
  {
  }

  /** The lookup loop of create_recipe and update_recipe. */
  method ResolveIngredients(foods: map<int, FoodRow>, ing: seq<(string, real)>) returns (r: Result<seq<(int, Portion)>, StoreError>)
    requires UniqueNames(FoodNames(foods))
    ensures r.Err? <==> IngredientsError(foods, ing).Some?
    ensures r.Err? ==> r.error == IngredientsError(foods, ing).value
    ensures r.Ok? ==> IngredientsResolve(foods, ing) && r.value == IngredientLines(foods, ing)
  {
    var names := FoodNames(foods);
    var ks := KeysOf(ing);
    var lines: seq<(int, Portion)> := [];
    for i := 0 to |ing|
      invariant forall j :: 0 <= j < i ==> Named(names, ks[j])
      invariant |lines| == i
      invariant forall j :: 0 <= j < i ==> lines[j] == (IdOf(names, ing[j].0), Portion(foods[IdOf(names, ing[j].0)].nutrients, ing[j].1))
    {
      var found := FindByName(names, ing[i].0);
      if found.None? {
        FirstUnnamedAt(names, ks, i);
        return Err(UnknownFood(ing[i].0));
      }
      IdOfIsTheId(names, ing[i].0, found.value);
      lines := lines + [(found.value, Portion(foods[found.value].nutrients, ing[i].1))];
    }
    FirstUnnamedAt(names, ks, |ing|);
    return Ok(lines);
  }

  /** The recipe lookup loop of create_meal and update_meal: each recipe as one serving. */
  method ResolveRecipeServings(recipes: map<int, RecipeRow>, ns: seq<string>) returns (r: Result<seq<(Component, Portion)>, StoreError>)
    requires UniqueNames(RecipeNames(recipes))
    ensures r.Ok? <==> FirstUnnamed(RecipeNames(recipes), ns) == |ns|
    ensures r.Ok? ==> r.value == RecipeServingLines(recipes, ns)
    ensures r.Err? ==> r.error == UnknownRecipe(ns[FirstUnnamed(RecipeNames(recipes), ns)])
  {
    var names := RecipeNames(recipes);
    var lines: seq<(Component, Portion)> := [];
    for i := 0 to |ns|
      invariant forall j :: 0 <= j < i ==> Named(names, ns[j])
      invariant |lines| == i
      invariant forall j :: 0 <= j < i ==>
        lines[j] == (Component(RecipeComponent, IdOf(names, ns[j])), Portion(recipes[IdOf(names, ns[j])].nutrients, 100.0))
    {
      var found := FindByName(names, ns[i]);
      if found.None? {
        FirstUnnamedAt(names, ns, i);
        return Err(UnknownRecipe(ns[i]));
      }
      IdOfIsTheId(names, ns[i], found.value);
      lines := lines + [(Component(RecipeComponent, found.value), Portion(recipes[found.value].nutrients, 100.0))];
    }
    FirstUnnamedAt(names, ns, |ns|);
    return Ok(lines);
  }

  /** The food lookup loop of create_meal and update_meal: each entry at its grams. */
  method ResolveFoodEntries(foods: map<int, FoodRow>, entries: seq<map<string, real>>) returns (r: Result<seq<(Component, Portion)>, StoreError>)
    requires UniqueNames(FoodNames(foods))
    requires forall i :: 0 <= i < |entries| ==> |entries[i]| == 1
    ensures r.Ok? <==> FirstUnnamed(FoodNames(foods), FoodEntryNames(entries)) == |entries|
    ensures r.Ok? ==> r.value == FoodEntryLines(foods, entries)
    ensures r.Err? ==> r.error == UnknownFood(FoodEntryNames(entries)[FirstUnnamed(FoodNames(foods), FoodEntryNames(entries))])
  {
    var names := FoodNames(foods);
    var ns := FoodEntryNames(entries);
    var lines: seq<(Component, Portion)> := [];
    for i := 0 to |entries|
      invariant forall j :: 0 <= j < i ==> Named(names, ns[j])
      invariant |lines| == i
      invariant forall j :: 0 <= j < i ==>
        lines[j] == (Component(FoodComponent, IdOf(names, ns[j])), Portion(foods[IdOf(names, ns[j])].nutrients, entries[j][ns[j]]))
    {
      var n := OnlyKey(entries[i]);
      var found := FindByName(names, n);
      if found.None? {
        FirstUnnamedAt(names, ns, i);
        return Err(UnknownFood(n));
      }
      IdOfIsTheId(names, n, found.value);
      lines := lines + [(Component(FoodComponent, found.value), Portion(foods[found.value].nutrients, entries[i][n]))];
    }
    FirstUnnamedAt(names, ns, |entries|);
    FoodEntryLinesAre(foods, entries, lines);
    return Ok(lines);
  }

  /** A list built entry by entry as the loop above builds it is the meal's food entry lines. */
  lemma FoodEntryLinesAre(foods: map<int, FoodRow>, entries: seq<map<string, real>>, lines: seq<(Component, Portion)>)
    requires forall i :: 0 <= i < |entries| ==> |entries[i]| == 1
    requires FirstUnnamed(FoodNames(foods), FoodEntryNames(entries)) == |entries|
    requires |lines| == |entries|
    requires forall j :: 0 <= j < |entries| ==>
      var id := IdOf(FoodNames(foods), FoodEntryNames(entries)[j]);
      id in foods && lines[j] == (Component(FoodComponent, id), Portion(foods[id].nutrients, entries[j][FoodEntryNames(entries)[j]]))
    ensures lines == FoodEntryLines(foods, entries)
  {
  }

  /** Every lookup of a meal: its recipes, then its food entries. */
  method ResolveMeal(recipes: map<int, RecipeRow>, foods: map<int, FoodRow>, p: MealPayload)
    returns (r: Result<seq<(Component, Portion)>, StoreError>)
    requires UniqueNames(RecipeNames(recipes)) && UniqueNames(FoodNames(foods)) && MealError(p).None?
    ensures r.Err? <==> MealLookupError(recipes, foods, p).Some?
    ensures r.Err? ==> r.error == MealLookupError(recipes, foods, p).value
    ensures r.Ok? ==> MealResolves(recipes, foods, p) && r.value == MealLines(recipes, foods, p)
  {
    var rs := ResolveRecipeServings(recipes, p.recipes);
    if rs.Err? {
      return Err(rs.error);
    }
    var fs := ResolveFoodEntries(foods, p.foods);
    if fs.Err? {
      return Err(fs.error);
    }
    return Ok(rs.value + fs.value);
  }

  /** `delete_food`'s check: some recipe item still references the food. */
  ghost predicate FoodReferenced(recipeItems: map<int, map<int, real>>, fid: int) {
    exists rid :: rid in recipeItems && fid in recipeItems[rid]
  }

  method FoodIsUsed(recipeItems: map<int, map<int, real>>, fid: int) returns (used: bool)
    ensures used <==> FoodReferenced(recipeItems, fid)
  {
    var rest := recipeItems.Keys;
    while rest != {}
      invariant rest <= recipeItems.Keys
      invariant forall rid :: rid in recipeItems && rid !in rest ==> fid !in recipeItems[rid]
      decreases rest
    {
      SomeId(rest);
      var rid :| rid in rest;
      if fid in recipeItems[rid] {
        return true;
      }
      rest := rest - {rid};
    }
    return false;
  }
}
