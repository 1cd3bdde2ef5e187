/**
 * Concrete scenarios of the store, with their outcomes proved: one food (lentils, per
 * 100 g), a recipe of 200 g of it, and meals built from them.
 */
module Scenarios {
  import opened Wrappers
  import opened Nutrients
  import opened Validation
  import opened Dicts
  import opened Tables
  import opened Store

  const LentilNutrients := NutrientVector(116.0, 9.0, 0.4, 20.0)

  const Lentils := FoodPayload("Lentejas", None,
    map["kcal" := 116.0, "protein_g" := 9.0, "fat_g" := 0.4, "carbs_g" := 20.0], None, None)

  const LentilRow := FoodRow("Lentejas", None, None, None, LentilNutrients)

  /** 200 g of lentils. */
  const Stew := RecipePayload("R1", None, [("Lentejas", 200.0)])

  const StewNutrients := NutrientVector(232.0, 18.0, 0.8, 40.0)

  const Day := Date(2024, 5, 1)

  lemma LentilsAreValid()
    ensures FoodError(Lentils).None? && NewFoodRow(Lentils) == LentilRow
  {
    var m := Lentils.nutrients;
    assert m["kcal"] == 116.0 && m["protein_g"] == 9.0 && m["fat_g"] == 0.4 && m["carbs_g"] == 20.0;
    assert forall k :: k in NutrientKeys ==> k in m && m[k] >= 0.0;
    assert ParseNutrients(m).Ok?;
  }

  lemma StewIsValid()
    ensures RecipeError(Stew).None?
  {
    assert !IsSpace(Stew.name[0]);
  }

  /** The stew resolves against the lentil table and caches twice the lentils' per-100 g values. */
  lemma StewTotal()
    ensures IngredientsResolve(map[1 := LentilRow], Stew.ingredients)
    ensures RecipeTotal(map[1 := LentilRow], Stew.ingredients) == StewNutrients
  {
    var foods := map[1 := LentilRow];
    var names := FoodNames(foods);
    assert names[1] == "Lentejas";
    IdOfIsTheId(names, "Lentejas", 1);
    assert FirstUnnamed(names, KeysOf(Stew.ingredients)) == 1 by {
      assert KeysOf(Stew.ingredients) == ["Lentejas"];
      assert FirstUnnamed(names, KeysOf(Stew.ingredients)[1..]) == 0;
    }
    var ps := PortionsOf(IngredientLines(foods, Stew.ingredients));
    assert ps == [Portion(LentilNutrients, 200.0)];
    AggregateOfOne(LentilNutrients, 200.0);
  }

  const StewRow := RecipeRow("R1", None, StewNutrients)

  /** One serving of the stew and 50 g of lentils. */
  const Lunch := MealPayload(Day, ["R1"], [map["Lentejas" := 50.0]])

  const LunchServing := (Component(RecipeComponent, 1), Portion(StewNutrients, 100.0))
  const LunchLentils := (Component(FoodComponent, 1), Portion(LentilNutrients, 50.0))

  /** The lunch resolves against the stew and the lentils, with no repeated component. */
  lemma LunchLines()
    ensures MealError(Lunch).None? && MealResolves(map[1 := StewRow], map[1 := LentilRow], Lunch)
    ensures Distinct(Lunch.recipes) && Distinct(FoodEntryNames(Lunch.foods))
    ensures MealLines(map[1 := StewRow], map[1 := LentilRow], Lunch) == [LunchServing, LunchLentils]
  {
    var recipes, foods := map[1 := StewRow], map[1 := LentilRow];
    var entry := Lunch.foods[0];
    assert "Lentejas" in entry;
    assert OnlyKey(entry) == "Lentejas";
    assert FoodEntryNames(Lunch.foods) == ["Lentejas"];
    assert RecipeNames(recipes)[1] == "R1";
    assert FoodNames(foods)[1] == "Lentejas";
    IdOfIsTheId(RecipeNames(recipes), "R1", 1);
    IdOfIsTheId(FoodNames(foods), "Lentejas", 1);
    assert FirstUnnamed(RecipeNames(recipes), Lunch.recipes[1..]) == 0;
    assert FirstUnnamed(FoodNames(foods), FoodEntryNames(Lunch.foods)[1..]) == 0;
    assert RecipeServingLines(recipes, Lunch.recipes) == [LunchServing];
    assert FoodEntryLines(foods, Lunch.foods) == [LunchLentils];
  }

  /**
   * The lunch caches 232 + 58 kcal, 18 + 4.5 g of protein, 0.8 + 0.2 g of fat and
   * 40 + 10 g of carbohydrate.
   */
  lemma LunchTotal()
    ensures MealResolves(map[1 := StewRow], map[1 := LentilRow], Lunch)
    ensures MealTotal(map[1 := StewRow], map[1 := LentilRow], Lunch) == NutrientVector(290.0, 22.5, 1.0, 50.0)
  {
    LunchLines();
    var ps := PortionsOf(MealLines(map[1 := StewRow], map[1 := LentilRow], Lunch));
    assert ps == [LunchServing.1] + [LunchLentils.1];
    AggregateAppend([LunchServing.1], [LunchLentils.1]);
    AggregateOfOne(StewNutrients, 100.0);
    AggregateOfOne(LentilNutrients, 50.0);
  }

  /** The lunch stores one recipe item at 100 and one food item at its 50 g. */
  lemma LunchItems()
    ensures MealResolves(map[1 := StewRow], map[1 := LentilRow], Lunch)
    ensures MealItemsFor(map[1 := StewRow], map[1 := LentilRow], Lunch) ==
            map[Component(RecipeComponent, 1) := 100.0, Component(FoodComponent, 1) := 50.0]
  {
    LunchLines();
    var pairs := ItemPairs(MealLines(map[1 := StewRow], map[1 := LentilRow], Lunch));
    assert pairs == [(LunchServing.0, 100.0), (LunchLentils.0, 50.0)];
    assert pairs[..1] == [(LunchServing.0, 100.0)];
    assert pairs[..1][..0] == [];
    assert DictOf(pairs[..1]) == map[LunchServing.0 := 100.0];
    assert DictOf(pairs) == DictOf(pairs[..1])[LunchLentils.0 := 50.0];
  }

  /** A store holding the lentils (food 1) and the stew (recipe 1), and nothing else. */
  method LentilStore() returns (s: NutritionStore)
    ensures fresh(s) && s.Valid()
    ensures s.foods == map[1 := LentilRow] && s.recipes == map[1 := StewRow]
    ensures s.meals == map[] && s.mealItems == map[]
  {
    s := new NutritionStore();
    LentilsAreValid();
    var food := s.CreateFood(Lentils);
    assert food == Ok(1);
    StewIsValid();
    StewTotal();
    var recipe := s.CreateRecipe(Stew);
    assert recipe == Ok(1);
  }

  /** The lunch as create_meal stores it, read back with get_meal_with_items. */
  method LentilLunch() returns (meal: Result<MealView, StoreError>)
    ensures meal == Ok(MealView(1, Day, NutrientVector(290.0, 22.5, 1.0, 50.0),
                                map[Component(RecipeComponent, 1) := 100.0, Component(FoodComponent, 1) := 50.0]))
  {
    var s := LentilStore();
    LunchLines();
    LunchTotal();
    LunchItems();
    var id := s.CreateMeal(Lunch);
    meal := s.MealWithItems(1);
  }

  /** Two servings of the same stew: both resolve to the same meal item key. */
  const Seconds := MealPayload(Day, ["R1", "R1"], [])

  /** The two servings resolve, repeat a component, and total twice the stew. */
  lemma SecondsTotal()
    ensures MealError(Seconds).None? && MealResolves(map[1 := StewRow], map[1 := LentilRow], Seconds)
    ensures !Distinct(Seconds.recipes)
    ensures MealTotal(map[1 := StewRow], map[1 := LentilRow], Seconds) == NutrientVector(464.0, 36.0, 1.6, 80.0)
  {
    var recipes, foods := map[1 := StewRow], map[1 := LentilRow];
    assert RecipeNames(recipes)[1] == "R1";
    IdOfIsTheId(RecipeNames(recipes), "R1", 1);
    assert FirstUnnamed(RecipeNames(recipes), Seconds.recipes[2..]) == 0;
    assert FirstUnnamed(RecipeNames(recipes), Seconds.recipes[1..]) == 1;
    assert FoodEntryNames(Seconds.foods) == [];
    assert RecipeServingLines(recipes, Seconds.recipes) == [LunchServing, LunchServing];
    assert FoodEntryLines(foods, Seconds.foods) == [];
    var ps := PortionsOf(MealLines(recipes, foods, Seconds));
    assert ps == [LunchServing.1] + [LunchServing.1];
    AggregateAppend([LunchServing.1], [LunchServing.1]);
    AggregateOfOne(StewNutrients, 100.0);
  }

  /**
   * create_meal as written on the two servings: the call fails on the repeated item, yet
   * meal 1 is left in the table with the doubled total and no items.
   */
  method SecondsAsWritten() returns (r: Result<int, StoreError>, meal: Result<MealView, StoreError>)
    ensures r == Err(DuplicateComponent)
    ensures meal == Ok(MealView(1, Day, NutrientVector(464.0, 36.0, 1.6, 80.0), map[]))
  {
    var s := LentilStore();
    SecondsTotal();
    r := s.CreateMealAsWritten(Seconds);
    meal := s.MealWithItems(1);
  }

  /** The corrected create_meal on the two servings: the call fails and no meal exists. */
  method SecondsCorrected() returns (r: Result<int, StoreError>, meal: Result<MealView, StoreError>)
    ensures r == Err(DuplicateComponent)
    ensures meal == Err(MealNotFound)
  {
    var s := LentilStore();
    SecondsTotal();
    r := s.CreateMeal(Seconds);
    meal := s.MealWithItems(1);
  }

  /** The lentils re-measured at 120 kcal per 100 g. */
  const RicherLentils := FoodPayload("Lentejas", None,
    map["kcal" := 120.0, "protein_g" := 9.0, "fat_g" := 0.4, "carbs_g" := 20.0], None, None)

  lemma RicherLentilsAreValid()
    ensures FoodError(RicherLentils).None?
    ensures FoodNutrients(RicherLentils) == NutrientVector(120.0, 9.0, 0.4, 20.0)
  {
    var m := RicherLentils.nutrients;
    assert m["kcal"] == 120.0 && m["protein_g"] == 9.0 && m["fat_g"] == 0.4 && m["carbs_g"] == 20.0;
    assert forall k :: k in NutrientKeys ==> k in m && m[k] >= 0.0;
    assert ParseNutrients(m).Ok?;
  }

  /** With the re-measured lentils, the stew would now total 240 kcal. */
  lemma RicherStewTotal()
    ensures IngredientsResolve(map[1 := FoodRow("Lentejas", None, None, None, NutrientVector(120.0, 9.0, 0.4, 20.0))], Stew.ingredients)
    ensures RecipeTotal(map[1 := FoodRow("Lentejas", None, None, None, NutrientVector(120.0, 9.0, 0.4, 20.0))], Stew.ingredients).kcal == 240.0
  {
    var v := NutrientVector(120.0, 9.0, 0.4, 20.0);
    var foods := map[1 := FoodRow("Lentejas", None, None, None, v)];
    var names := FoodNames(foods);
    assert names[1] == "Lentejas";
    IdOfIsTheId(names, "Lentejas", 1);
    assert FirstUnnamed(names, KeysOf(Stew.ingredients)) == 1 by {
      assert KeysOf(Stew.ingredients) == ["Lentejas"];
      assert FirstUnnamed(names, KeysOf(Stew.ingredients)[1..]) == 0;
    }
    assert PortionsOf(IngredientLines(foods, Stew.ingredients)) == [Portion(v, 200.0)];
    AggregateOfOne(v, 200.0);
  }

  /**
   * update_food does not touch the recipes: after the lentils are re-measured the stew
   * still caches 232 kcal, while aggregating its ingredients afresh would give 240.
   */
  method StaleStew() returns (cached: NutrientVector, foods: map<int, FoodRow>)
    ensures cached == StewNutrients
    ensures IngredientsResolve(foods, Stew.ingredients) && RecipeTotal(foods, Stew.ingredients).kcal == 240.0
  {
    var s := LentilStore();
    RicherLentilsAreValid();
    assert FoodNames(s.foods).Keys == {1};
    assert !NamedOtherThan(FoodNames(s.foods), RicherLentils.name, 1);
    var updated := s.UpdateFood(1, RicherLentils);
    assert s.foods == map[1 := FoodRow("Lentejas", None, None, None, NutrientVector(120.0, 9.0, 0.4, 20.0))];
    RicherStewTotal();
    cached := s.recipes[1].nutrients;
    foods := s.foods;
  }
}
