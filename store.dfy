/**
 * The five tables of the nutrition database and the create, read, update and delete
 * operations over them. Each operation runs in one session: it either commits all of its
 * changes or, when it raises, leaves every table as it was, except `create_meal` as
 * written (`CreateMealAsWritten`), which commits the meal row before its items.
 */
module Store {
  import opened Wrappers
  import opened Nutrients
  import opened Dicts
  import opened Validation
  import opened Tables
  import opened Composition
  import opened Resolve

  // ---------------------------------------------------------------- table invariants

  /** Food ids are positive rowids, nutrients are validated, names are unique. */
  ghost predicate FoodsOk(foods: map<int, FoodRow>) {
    && (forall id :: id in foods ==> id > 0)
    && FoodsNonNegative(foods)
    && UniqueNames(FoodNames(foods))
  }

  /** Recipe ids are positive rowids, cached totals are non-negative, names are unique. */
  ghost predicate RecipesOk(recipes: map<int, RecipeRow>) {
    && (forall id :: id in recipes ==> id > 0)
    && RecipesNonNegative(recipes)
    && UniqueNames(RecipeNames(recipes))
  }

  ghost predicate MealsOk(meals: map<int, MealRow>) {
    forall id :: id in meals ==> id > 0 && IsNonNegative(meals[id].nutrients)
  }

  /**
   * Every recipe has an item set (possibly empty) and nothing else does; each item names
   * an existing food (the RESTRICT foreign key) with a positive quantity.
   */
  ghost predicate RecipeItemsOk(recipes: map<int, RecipeRow>, foods: map<int, FoodRow>,
                                recipeItems: map<int, map<int, real>>) {
    && recipeItems.Keys == recipes.Keys
    && forall rid, fid :: rid in recipeItems && fid in recipeItems[rid] ==>
         fid in foods && recipeItems[rid][fid] > 0.0
  }

  /**
   * Every meal has an item set and nothing else does; each item has a positive id and
   * quantity, and a recipe item names an existing recipe at quantity 100. A food item may
   * outlive its food: nothing cascades from foods to meal items.
   */
  ghost predicate MealItemsOk(meals: map<int, MealRow>, recipes: map<int, RecipeRow>,
                              mealItems: map<int, map<Component, real>>) {
    && mealItems.Keys == meals.Keys
    && forall mid, c :: mid in mealItems && c in mealItems[mid] ==>
         c.id > 0 && mealItems[mid][c] > 0.0 &&
         (c.kind == RecipeComponent ==> c.id in recipes && mealItems[mid][c] == 100.0)
  }

  /** The meal items left once every item for component `c` is deleted. */
  function WithoutComponent(mealItems: map<int, map<Component, real>>, c: Component): (r: map<int, map<Component, real>>)
    ensures r.Keys == mealItems.Keys
    ensures forall mid :: mid in r ==> c !in r[mid]
    ensures forall mid, c' :: mid in r && c' != c ==> (c' in r[mid] <==> c' in mealItems[mid])
    ensures forall mid, c' :: mid in r && c' in r[mid] ==> r[mid][c'] == mealItems[mid][c']
  {
    map mid | mid in mealItems :: mealItems[mid] - {c}
  }

  /** An item set a recipe may own: existing foods at positive grams. */
  ghost predicate RecipeItemSetOk(foods: map<int, FoodRow>, items: map<int, real>) {
    forall fid :: fid in items ==> fid in foods && items[fid] > 0.0
  }

  /** An item set a meal may own: the conditions MealItemsOk puts on each item. */
  ghost predicate MealItemSetOk(recipes: map<int, RecipeRow>, items: map<Component, real>) {
    forall c :: c in items ==>
      c.id > 0 && items[c] > 0.0 && (c.kind == RecipeComponent ==> c.id in recipes && items[c] == 100.0)
  }

  /** Writing one food row under a name no other food has keeps the food invariants. */
  lemma FoodWriteKeepsInvariants(foods: map<int, FoodRow>, recipes: map<int, RecipeRow>,
                                 recipeItems: map<int, map<int, real>>, id: int, row: FoodRow)
    requires FoodsOk(foods) && RecipeItemsOk(recipes, foods, recipeItems)
    requires id > 0 && IsNonNegative(row.nutrients) && !NamedOtherThan(FoodNames(foods), row.name, id)
    ensures FoodsOk(foods[id := row])
    ensures RecipeItemsOk(recipes, foods[id := row], recipeItems)
  {
    InsertKeepsUnique(FoodNames(foods), id, row.name);
    assert FoodNames(foods[id := row]) == FoodNames(foods)[id := row.name];
  }

  /** Writing one recipe row, with its item set, keeps the recipe invariants. */
  lemma RecipeWriteKeepsInvariants(foods: map<int, FoodRow>, recipes: map<int, RecipeRow>,
                                   recipeItems: map<int, map<int, real>>, meals: map<int, MealRow>,
                                   mealItems: map<int, map<Component, real>>,
                                   id: int, row: RecipeRow, items: map<int, real>)
    requires RecipesOk(recipes) && RecipeItemsOk(recipes, foods, recipeItems)
    requires MealItemsOk(meals, recipes, mealItems)
    requires id > 0 && IsNonNegative(row.nutrients) && !NamedOtherThan(RecipeNames(recipes), row.name, id)
    requires RecipeItemSetOk(foods, items)
    ensures RecipesOk(recipes[id := row])
    ensures RecipeItemsOk(recipes[id := row], foods, recipeItems[id := items])
    ensures MealItemsOk(meals, recipes[id := row], mealItems)
  {
    InsertKeepsUnique(RecipeNames(recipes), id, row.name);
    assert RecipeNames(recipes[id := row]) == RecipeNames(recipes)[id := row.name];
    ItemSetWriteKeepsInvariant(foods, recipes, recipeItems, id, row, items);
  }

  lemma ItemSetWriteKeepsInvariant(foods: map<int, FoodRow>, recipes: map<int, RecipeRow>,
                                   recipeItems: map<int, map<int, real>>,
                                   id: int, row: RecipeRow, items: map<int, real>)
    requires RecipeItemsOk(recipes, foods, recipeItems) && RecipeItemSetOk(foods, items)
    ensures RecipeItemsOk(recipes[id := row], foods, recipeItems[id := items])
  {
    var recipeItems' := recipeItems[id := items];
    assert recipeItems'.Keys == recipes[id := row].Keys;
    forall rid, fid | rid in recipeItems' && fid in recipeItems'[rid]
      ensures fid in foods && recipeItems'[rid][fid] > 0.0
    {
      if rid == id {
        assert recipeItems'[rid] == items;
        assert fid in items;
      } else {
        assert recipeItems'[rid] == recipeItems[rid];
        assert rid in recipeItems && fid in recipeItems[rid];
      }
    }
  }

  /** Writing one meal row, with its item set, keeps the meal invariants. */
  lemma MealWriteKeepsInvariants(recipes: map<int, RecipeRow>, meals: map<int, MealRow>,
                                 mealItems: map<int, map<Component, real>>,
                                 id: int, row: MealRow, items: map<Component, real>)
    requires MealsOk(meals) && MealItemsOk(meals, recipes, mealItems)
    requires id > 0 && IsNonNegative(row.nutrients) && MealItemSetOk(recipes, items)
    ensures MealsOk(meals[id := row])
    ensures MealItemsOk(meals[id := row], recipes, mealItems[id := items])
  {
  }

  /** The items a resolved recipe payload stores may be owned by a recipe. */
  lemma RecipeItemsFit(foods: map<int, FoodRow>, p: RecipePayload)
    requires UniqueNames(FoodNames(foods)) && IngredientsResolve(foods, p.ingredients)
    requires RecipeError(p).None?
    ensures RecipeItemSetOk(foods, RecipeItemsFor(foods, p.ingredients))
  {
    RecipeItemsExact(foods, p.ingredients);
  }

  /** The items a resolved meal payload stores may be owned by a meal. */
  lemma MealItemsFit(recipes: map<int, RecipeRow>, foods: map<int, FoodRow>, p: MealPayload)
    requires RecipesOk(recipes) && FoodsOk(foods) && MealResolves(recipes, foods, p)
    ensures MealItemSetOk(recipes, MealItemsFor(recipes, foods, p))
  {
    MealItemsWellFormed(recipes, foods, p);
  }

  /** get_food_and_nutrients and get_recipe_with_nutrients: a name with scaled nutrients. */
  datatype ScaledServing = ScaledServing(name: string, nutrients: NutrientVector, quantity: real)

  /** get_recipe_with_ingredients: the recipe row plus its ingredients keyed by food name. */
  datatype RecipeView = RecipeView(id: int, name: string, description: Option<string>,
                                   nutrients: NutrientVector, ingredients: map<string, IngredientLine>)

  /** get_meal_with_items: the meal row plus its items. */
  datatype MealView = MealView(id: int, date: Date, nutrients: NutrientVector, items: map<Component, real>)

  /** A new food row: create_food stores no market. */
  function NewFoodRow(f: FoodPayload): (row: FoodRow)
    requires FoodError(f).None?
    ensures row.name == f.name && row.category == f.category && row.unit == f.unit
    ensures row.market.None? && IsNonNegative(row.nutrients)
  {
    FoodRow(f.name, f.category, f.unit, None, FoodNutrients(f))
  }

  class NutritionStore {
    var foods: map<int, FoodRow>
    var recipes: map<int, RecipeRow>
    var recipeItems: map<int, map<int, real>>   // recipe_id -> food_id -> quantity_g
    var meals: map<int, MealRow>
    var mealItems: map<int, map<Component, real>>   // meal_id -> component -> quantity

    ghost predicate Valid()
      reads this
    {
      && FoodsOk(foods)
      && RecipesOk(recipes)
      && MealsOk(meals)
      && RecipeItemsOk(recipes, foods, recipeItems)
      && MealItemsOk(meals, recipes, mealItems)
    }

    /** A freshly created database: every table empty. */
    constructor ()
      ensures Valid()
      ensures foods == map[] && recipes == map[] && recipeItems == map[]
      ensures meals == map[] && mealItems == map[]
    {
      foods, recipes, recipeItems := map[], map[], map[];
      meals, mealItems := map[], map[];
    }

    // -------------------------------------------------------------- foods

    method CreateFood(f: FoodPayload) returns (r: Result<int, StoreError>)
      requires Valid() && FoodError(f).None?
      modifies this
      ensures Valid()
      ensures Named(FoodNames(old(foods)), f.name) ==> r == Err(NameTaken(f.name)) && unchanged(this)
      ensures !Named(FoodNames(old(foods)), f.name) ==>
        && r.Ok? && IsNextRowId(old(foods).Keys, r.value)
        && foods == old(foods)[r.value := NewFoodRow(f)]
        && recipes == old(recipes) && recipeItems == old(recipeItems)
        && meals == old(meals) && mealItems == old(mealItems)
    {
      var taken := FindByName(FoodNames(foods), f.name);
      if taken.Some? {
        return Err(NameTaken(f.name));
      }
      var id := NextRowId(foods.Keys);
      var row := NewFoodRow(f);
      FoodWriteKeepsInvariants(foods, recipes, recipeItems, id, row);
      foods := foods[id := row];
      return Ok(id);
    }

    function FoodById(id: int): (r: Option<FoodRow>)
      reads this
      ensures r.Some? <==> id in foods
      ensures r.Some? ==> r.value == foods[id]
    {
      if id in foods then Some(foods[id]) else None
    }

    method UpdateFood(id: int, f: FoodPayload) returns (r: Result<FoodRow, StoreError>)
      requires Valid() && FoodError(f).None?
      modifies this
      ensures Valid()
      ensures id !in old(foods) ==> r == Err(FoodNotFound) && unchanged(this)
      ensures id in old(foods) && NamedOtherThan(FoodNames(old(foods)), f.name, id) ==>
        r == Err(NameTaken(f.name)) && unchanged(this)
      ensures id in old(foods) && !NamedOtherThan(FoodNames(old(foods)), f.name, id) ==>
        && r == Ok(FoodRow(f.name, f.category, f.unit, f.market, FoodNutrients(f)))
        && foods == old(foods)[id := r.value]
        && recipes == old(recipes) && recipeItems == old(recipeItems)
        && meals == old(meals) && mealItems == old(mealItems)
    {
      if id !in foods {
        return Err(FoodNotFound);
      }
      var names := FoodNames(foods);
      var holder := FindByName(names, f.name);
      if holder.Some? && holder.value != id {
        return Err(NameTaken(f.name));
      }
      assert !NamedOtherThan(names, f.name, id);
      var row := FoodRow(f.name, f.category, f.unit, f.market, FoodNutrients(f));
      FoodWriteKeepsInvariants(foods, recipes, recipeItems, id, row);
      foods := foods[id := row];
      return Ok(row);
    }

    method DeleteFood(id: int) returns (r: Result<bool, StoreError>)
      requires Valid()
      modifies this
      ensures Valid()
      ensures id !in old(foods) ==> r == Ok(false) && unchanged(this)
      ensures id in old(foods) && FoodReferenced(old(recipeItems), id) ==> r == Err(FoodInUse) && unchanged(this)
      ensures id in old(foods) && !FoodReferenced(old(recipeItems), id) ==>
        && r == Ok(true) && foods == old(foods) - {id}
        && recipes == old(recipes) && recipeItems == old(recipeItems)
        && meals == old(meals) && mealItems == old(mealItems)
    {
      if id !in foods {
        return Ok(false);
      }
      var used := FoodIsUsed(recipeItems, id);
      if used {
        return Err(FoodInUse);
      }
      assert FoodNames(foods - {id}) == FoodNames(foods) - {id};
      foods := foods - {id};
      return Ok(true);
    }

    /** get_food_and_nutrients: the food's nutrients scaled to `grams`. */
    function FoodAndNutrients(id: int, grams: real): (r: Result<ScaledServing, StoreError>)
      reads this
      ensures r.Err? <==> id !in foods
      ensures r.Err? ==> r.error == FoodNotFound
      ensures r.Ok? ==> r.value.name == foods[id].name && r.value.quantity == grams &&
                        r.value.nutrients == Aggregate([Portion(foods[id].nutrients, grams)])
    {
      if id !in foods then Err(FoodNotFound)
      else
        assert [Portion(foods[id].nutrients, grams)][..0] == [];
        Ok(ScaledServing(foods[id].name, Scale(foods[id].nutrients, grams), grams))
    }

    // -------------------------------------------------------------- recipes

    method CreateRecipe(p: RecipePayload) returns (r: Result<int, StoreError>)
      requires Valid() && RecipeError(p).None?
      modifies this
      ensures Valid()
      ensures IngredientsError(old(foods), p.ingredients).Some? ==>
        r == Err(IngredientsError(old(foods), p.ingredients).value) && unchanged(this)
      ensures IngredientsResolve(old(foods), p.ingredients) && Named(RecipeNames(old(recipes)), p.name) ==>
        r == Err(NameTaken(p.name)) && unchanged(this)
      ensures IngredientsResolve(old(foods), p.ingredients) && !Named(RecipeNames(old(recipes)), p.name) ==>
        && r.Ok? && IsNextRowId(old(recipes).Keys, r.value)
        && recipes == old(recipes)[r.value := RecipeRow(p.name, p.description, RecipeTotal(old(foods), p.ingredients))]
        && recipeItems == old(recipeItems)[r.value := RecipeItemsFor(old(foods), p.ingredients)]
        && foods == old(foods) && meals == old(meals) && mealItems == old(mealItems)
    {
      var lines := ResolveIngredients(foods, p.ingredients);
      if lines.Err? {
        return Err(lines.error);
      }
      var total := CalculateTotalNutrients(PortionsOf(lines.value));
      var names := RecipeNames(recipes);
      var taken := FindByName(names, p.name);
      if taken.Some? {
        return Err(NameTaken(p.name));
      }
      var id := NextRowId(recipes.Keys);
      RecipeItemKeysDistinct(foods, p.ingredients);
      var rows := InsertRows(ItemPairs(lines.value));
      RecipeTotalNonNegative(foods, p.ingredients);
      RecipeItemsFit(foods, p);
      StoreRecipe(id, RecipeRow(p.name, p.description, total), rows.value);
      return Ok(id);
    }

    /** The writes shared by create_recipe and update_recipe: one recipe row and its whole item set. */
    method StoreRecipe(id: int, row: RecipeRow, items: map<int, real>)
      requires Valid() && id > 0 && IsNonNegative(row.nutrients)
      requires !NamedOtherThan(RecipeNames(recipes), row.name, id)
      requires RecipeItemSetOk(foods, items)
      modifies this
      ensures Valid()
      ensures recipes == old(recipes)[id := row] && recipeItems == old(recipeItems)[id := items]
      ensures foods == old(foods) && meals == old(meals) && mealItems == old(mealItems)
    {
      RecipeWriteKeepsInvariants(foods, recipes, recipeItems, meals, mealItems, id, row, items);
      recipes := recipes[id := row];
      recipeItems := recipeItems[id := items];
    }

    function RecipeById(id: int): (r: Option<RecipeRow>)
      reads this
      ensures r.Some? <==> id in recipes
      ensures r.Some? ==> r.value == recipes[id]
    {
      if id in recipes then Some(recipes[id]) else None
    }

    method UpdateRecipe(id: int, p: RecipePayload) returns (r: Result<RecipeRow, StoreError>)
      requires Valid() && RecipeError(p).None?
      modifies this
      ensures Valid()
      ensures id !in old(recipes) ==> r == Err(RecipeNotFound) && unchanged(this)
      ensures id in old(recipes) && IngredientsError(old(foods), p.ingredients).Some? ==>
        r == Err(IngredientsError(old(foods), p.ingredients).value) && unchanged(this)
      ensures id in old(recipes) && IngredientsResolve(old(foods), p.ingredients) &&
              NamedOtherThan(RecipeNames(old(recipes)), p.name, id) ==>
        r == Err(NameTaken(p.name)) && unchanged(this)
      ensures id in old(recipes) && IngredientsResolve(old(foods), p.ingredients) &&
              !NamedOtherThan(RecipeNames(old(recipes)), p.name, id) ==>
        && r == Ok(RecipeRow(p.name, p.description, RecipeTotal(old(foods), p.ingredients)))
        && recipes == old(recipes)[id := r.value]
        && recipeItems == old(recipeItems)[id := RecipeItemsFor(old(foods), p.ingredients)]
        && foods == old(foods) && meals == old(meals) && mealItems == old(mealItems)
    {
      if id !in recipes {
        return Err(RecipeNotFound);
      }
      var lines := ResolveIngredients(foods, p.ingredients);
      if lines.Err? {
        return Err(lines.error);
      }
      var total := CalculateTotalNutrients(PortionsOf(lines.value));
      var names := RecipeNames(recipes);
      var holder := FindByName(names, p.name);
      if holder.Some? && holder.value != id {
        return Err(NameTaken(p.name));
      }
      assert !NamedOtherThan(names, p.name, id);
      RecipeItemKeysDistinct(foods, p.ingredients);
      var rows := InsertRows(ItemPairs(lines.value));
      RecipeTotalNonNegative(foods, p.ingredients);
      RecipeItemsFit(foods, p);
      var row := RecipeRow(p.name, p.description, total);
      StoreRecipe(id, row, rows.value);
      return Ok(row);
    }

    method DeleteRecipe(id: int) returns (deleted: bool)
      requires Valid()
      modifies this
      ensures Valid()
      ensures deleted <==> id in old(recipes)
      ensures !deleted ==> unchanged(this)
      ensures deleted ==>
        && recipes == old(recipes) - {id} && recipeItems == old(recipeItems) - {id}
        && mealItems == WithoutComponent(old(mealItems), Component(RecipeComponent, id))
        && foods == old(foods) && meals == old(meals)
    {
      var cleared := WithoutComponent(mealItems, Component(RecipeComponent, id));
      if id !in recipes {
        return false;
      }
      assert RecipeNames(recipes - {id}) == RecipeNames(recipes) - {id};
      recipes := recipes - {id};
      recipeItems := recipeItems - {id};
      mealItems := cleared;
      return true;
    }

    /** get_recipe_with_ingredients: the recipe with its items joined to their foods. */
    function RecipeWithIngredients(id: int): (r: Result<RecipeView, StoreError>)
      requires Valid()
      reads this
      ensures r.Err? <==> id !in recipes
      ensures r.Err? ==> r.error == RecipeNotFound
      ensures r.Ok? ==>
        && r.value.id == id && r.value.name == recipes[id].name
        && r.value.description == recipes[id].description && r.value.nutrients == recipes[id].nutrients
        && r.value.ingredients == IngredientView(foods, recipeItems[id])
    {
      if id !in recipes then Err(RecipeNotFound)
      else
        var row := recipes[id];
        Ok(RecipeView(id, row.name, row.description, row.nutrients, IngredientView(foods, recipeItems[id])))
    }

    /** get_recipe_with_nutrients: the recipe's cached total scaled to `grams`. */
    function RecipeAndNutrients(id: int, grams: real): (r: Result<ScaledServing, StoreError>)
      reads this
      ensures r.Err? <==> id !in recipes
      ensures r.Err? ==> r.error == RecipeNotFound
      ensures r.Ok? ==> r.value.name == recipes[id].name && r.value.quantity == grams &&
                        r.value.nutrients == Aggregate([Portion(recipes[id].nutrients, grams)])
    {
      if id !in recipes then Err(RecipeNotFound)
      else
        assert [Portion(recipes[id].nutrients, grams)][..0] == [];
        Ok(ScaledServing(recipes[id].name, Scale(recipes[id].nutrients, grams), grams))
    }

    // -------------------------------------------------------------- meals

    method CreateMeal(p: MealPayload) returns (r: Result<int, StoreError>)
      requires Valid() && MealError(p).None?
      modifies this
      ensures Valid()
      ensures MealLookupError(old(recipes), old(foods), p).Some? ==>
        r == Err(MealLookupError(old(recipes), old(foods), p).value) && unchanged(this)
      ensures MealResolves(old(recipes), old(foods), p) &&
              !(Distinct(p.recipes) && Distinct(FoodEntryNames(p.foods))) ==>
        r == Err(DuplicateComponent) && unchanged(this)
      ensures MealResolves(old(recipes), old(foods), p) &&
              Distinct(p.recipes) && Distinct(FoodEntryNames(p.foods)) ==>
        && r.Ok? && IsNextRowId(old(meals).Keys, r.value)
        && meals == old(meals)[r.value := MealRow(p.date, MealTotal(old(recipes), old(foods), p))]
        && mealItems == old(mealItems)[r.value := MealItemsFor(old(recipes), old(foods), p)]
        && foods == old(foods) && recipes == old(recipes) && recipeItems == old(recipeItems)
    {
      var lines := ResolveMeal(recipes, foods, p);
      if lines.Err? {
        return Err(lines.error);
      }
      var total := CalculateTotalNutrients(PortionsOf(lines.value));
      var id := NextRowId(meals.Keys);
      var rows := InsertRows(ItemPairs(lines.value));
      MealComponentsDistinct(recipes, foods, p);
      if rows.None? {
        return Err(DuplicateComponent);
      }
      MealTotalNonNegative(recipes, foods, p);
      MealItemsFit(recipes, foods, p);
      StoreMeal(id, MealRow(p.date, total), rows.value);
      return Ok(id);
    }

    /**
     * create_meal as written: the meal row is committed before its items, so when the
     * items collide the row stays behind with no items while the call still raises.
     */
    method CreateMealAsWritten(p: MealPayload) returns (r: Result<int, StoreError>)
      requires Valid() && MealError(p).None?
      modifies this
      ensures Valid()
      ensures MealLookupError(old(recipes), old(foods), p).Some? ==>
        r == Err(MealLookupError(old(recipes), old(foods), p).value) && unchanged(this)
      ensures MealResolves(old(recipes), old(foods), p) &&
              !(Distinct(p.recipes) && Distinct(FoodEntryNames(p.foods))) ==>
        && r == Err(DuplicateComponent)
        && (exists id :: IsNextRowId(old(meals).Keys, id) &&
              meals == old(meals)[id := MealRow(p.date, MealTotal(old(recipes), old(foods), p))] &&
              mealItems == old(mealItems)[id := map[]])
        && foods == old(foods) && recipes == old(recipes) && recipeItems == old(recipeItems)
      ensures MealResolves(old(recipes), old(foods), p) &&
              Distinct(p.recipes) && Distinct(FoodEntryNames(p.foods)) ==>
        && r.Ok? && IsNextRowId(old(meals).Keys, r.value)
        && meals == old(meals)[r.value := MealRow(p.date, MealTotal(old(recipes), old(foods), p))]
        && mealItems == old(mealItems)[r.value := MealItemsFor(old(recipes), old(foods), p)]
        && foods == old(foods) && recipes == old(recipes) && recipeItems == old(recipeItems)
    {
      var lines := ResolveMeal(recipes, foods, p);
      if lines.Err? {
        return Err(lines.error);
      }
      var total := CalculateTotalNutrients(PortionsOf(lines.value));
      var id := NextRowId(meals.Keys);
      var row := MealRow(p.date, total);
      ghost var meals0, mealItems0 := meals, mealItems;
      MealTotalNonNegative(recipes, foods, p);
      StoreMeal(id, row, map[]);
      var rows := InsertRows(ItemPairs(lines.value));
      MealComponentsDistinct(recipes, foods, p);
      if rows.None? {
        return Err(DuplicateComponent);
      }
      MealItemsFit(recipes, foods, p);
      StoreMeal(id, row, rows.value);
      UpdateTwice(meals0, id, row, row);
      UpdateTwice(mealItems0, id, map[], rows.value);
      return Ok(id);
    }

    /** The writes shared by create_meal and update_meal: one meal row and its whole item set. */
    method StoreMeal(id: int, row: MealRow, items: map<Component, real>)
      requires Valid() && id > 0 && IsNonNegative(row.nutrients) && MealItemSetOk(recipes, items)
      modifies this
      ensures Valid()
      ensures meals == old(meals)[id := row] && mealItems == old(mealItems)[id := items]
      ensures foods == old(foods) && recipes == old(recipes) && recipeItems == old(recipeItems)
    {
      MealWriteKeepsInvariants(recipes, meals, mealItems, id, row, items);
      meals := meals[id := row];
      mealItems := mealItems[id := items];
    }

    function MealById(id: int): (r: Option<MealRow>)
      reads this
      ensures r.Some? <==> id in meals
      ensures r.Some? ==> r.value == meals[id]
    {
      if id in meals then Some(meals[id]) else None
    }

    /** get_meal_with_items: the meal with its stored items. */
    function MealWithItems(id: int): (r: Result<MealView, StoreError>)
      requires Valid()
      reads this
      ensures r.Err? <==> id !in meals
      ensures r.Err? ==> r.error == MealNotFound
      ensures r.Ok? ==> r.value == MealView(id, meals[id].date, meals[id].nutrients, mealItems[id])
    {
      if id !in meals then Err(MealNotFound)
      else Ok(MealView(id, meals[id].date, meals[id].nutrients, mealItems[id]))
    }

    method UpdateMeal(id: int, p: MealPayload) returns (r: Result<MealRow, StoreError>)
      requires Valid() && MealError(p).None?
      modifies this
      ensures Valid()
      ensures id !in old(meals) ==> r == Err(MealNotFound) && unchanged(this)
      ensures id in old(meals) && MealLookupError(old(recipes), old(foods), p).Some? ==>
        r == Err(MealLookupError(old(recipes), old(foods), p).value) && unchanged(this)
      ensures id in old(meals) && MealResolves(old(recipes), old(foods), p) &&
              !(Distinct(p.recipes) && Distinct(FoodEntryNames(p.foods))) ==>
        r == Err(DuplicateComponent) && unchanged(this)
      ensures id in old(meals) && MealResolves(old(recipes), old(foods), p) &&
              Distinct(p.recipes) && Distinct(FoodEntryNames(p.foods)) ==>
        && r == Ok(MealRow(p.date, MealTotal(old(recipes), old(foods), p)))
        && meals == old(meals)[id := r.value]
        && mealItems == old(mealItems)[id := MealItemsFor(old(recipes), old(foods), p)]
        && foods == old(foods) && recipes == old(recipes) && recipeItems == old(recipeItems)
    {
      if id !in meals {
        return Err(MealNotFound);
      }
      var lines := ResolveMeal(recipes, foods, p);
      if lines.Err? {
        return Err(lines.error);
      }
      var total := CalculateTotalNutrients(PortionsOf(lines.value));
      var rows := InsertRows(ItemPairs(lines.value));
      MealComponentsDistinct(recipes, foods, p);
      if rows.None? {
        return Err(DuplicateComponent);
      }
      MealTotalNonNegative(recipes, foods, p);
      MealItemsFit(recipes, foods, p);
      var row := MealRow(p.date, total);
      StoreMeal(id, row, rows.value);
      return Ok(row);
    }

    method DeleteMeal(id: int) returns (deleted: bool)
      requires Valid()
      modifies this
      ensures Valid()
      ensures deleted <==> id in old(meals)
      ensures !deleted ==> unchanged(this)
      ensures deleted ==>
        && meals == old(meals) - {id} && mealItems == old(mealItems) - {id}
        && foods == old(foods) && recipes == old(recipes) && recipeItems == old(recipeItems)
    {
      if id !in meals {
        return false;
      }
      meals := meals - {id};
      mealItems := mealItems - {id};
      return true;
    }

    /** get_meals_by_date: every meal whose date is exactly `d`. */
    method MealsByDate(d: Date) returns (found: map<int, MealRow>)
      ensures forall id :: id in found <==> id in meals && meals[id].date == d
      ensures forall id :: id in found ==> found[id] == meals[id]
    {
      found := map[];
      var rest := meals.Keys;
      while rest != {}
        invariant rest <= meals.Keys
        invariant forall id :: id in found <==> id in meals && id !in rest && meals[id].date == d
        invariant forall id :: id in found ==> found[id] == meals[id]
        decreases rest
      {
        SomeId(rest);
        var id :| id in rest;
        if meals[id].date == d {
          found := found[id := meals[id]];
        }
        rest := rest - {id};
      }
    }
  }
}
