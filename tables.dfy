/**
 * The rows of the five tables (foods, recipes, recipe_items, meals, meal_items), name
 * lookups, row-id assignment, and the resolved lines from which recipes and meals
 * compute their cached nutrients and their item sets.
 */
module Tables {
  import opened Wrappers
  import opened Nutrients
  import opened Dicts
  import opened Validation

  /** A row of `foods`; nutrients are per 100 g. */
  datatype FoodRow = FoodRow(name: string, category: Option<string>, unit: Option<real>,
                             market: Option<string>, nutrients: NutrientVector)

  /** A row of `recipes`; nutrients are the cached absolute total. */
  datatype RecipeRow = RecipeRow(name: string, description: Option<string>, nutrients: NutrientVector)

  /** A row of `meals`; nutrients are the cached absolute total. */
  datatype MealRow = MealRow(date: Date, nutrients: NutrientVector)

  /** The (component_type, component_id) half of a meal item's primary key. */
  datatype Component = Component(kind: ComponentType, id: int)

  datatype StoreError =
    | FoodNotFound                // "Food not found"
    | RecipeNotFound              // "Recipe not found"
    | MealNotFound                // "Meal not found"
    | UnknownFood(name: string)   // "Food '<name>' not found" while resolving a name
    | UnknownRecipe(name: string) // "Recipe '<name>' not found" while resolving a name
    | NameTaken(name: string)     // the unique constraint on a food or recipe name
    | FoodInUse                   // deleting a food that a recipe item still references
    | DuplicateComponent          // two meal items with the same primary key

  // ---------------------------------------------------------------- names

  function FoodNames(foods: map<int, FoodRow>): (names: map<int, string>)
    ensures names.Keys == foods.Keys && forall id :: id in foods ==> names[id] == foods[id].name
  {
    map id | id in foods :: foods[id].name
  }

  function RecipeNames(recipes: map<int, RecipeRow>): (names: map<int, string>)
    ensures names.Keys == recipes.Keys && forall id :: id in recipes ==> names[id] == recipes[id].name
  {
    map id | id in recipes :: recipes[id].name
  }

  /** Some row carries the name `n`. */
  ghost predicate Named(names: map<int, string>, n: string) {
    exists id :: id in names && names[id] == n
  }

  /** Some row other than `id` carries the name `n`. */
  ghost predicate NamedOtherThan(names: map<int, string>, n: string, id: int) {
    exists other :: other in names && other != id && names[other] == n
  }

  /** The unique constraint on the name column. */
  ghost predicate UniqueNames(names: map<int, string>) {
    forall a, b :: a in names && b in names && names[a] == names[b] ==> a == b
  }

  /** The row that carries the name `n`. */
  ghost function IdOf(names: map<int, string>, n: string): (id: int)
    requires Named(names, n)
    ensures id in names && names[id] == n
  {
    var id :| id in names && names[id] == n; id
  }

  lemma IdOfIsTheId(names: map<int, string>, n: string, id: int)
    requires UniqueNames(names) && id in names && names[id] == n
    ensures IdOf(names, n) == id
  {
  }

  /** The position of the first name in `ns` that no row carries (|ns| when all resolve). */
  ghost function FirstUnnamed(names: map<int, string>, ns: seq<string>): (k: nat)
    ensures k <= |ns|
    ensures forall j :: 0 <= j < k ==> Named(names, ns[j])
    ensures k < |ns| ==> !Named(names, ns[k])
  {
    if ns == [] || !Named(names, ns[0]) then 0
    else
      var k := FirstUnnamed(names, ns[1..]);
      assert forall j :: 1 <= j < |ns| ==> ns[j] == ns[1..][j - 1];
      1 + k
  }

  /** A non-empty set of row ids has an element (lets a loop over the ids pick one). */
  lemma SomeId(s: set<int>)
    requires s != {}
    ensures exists id :: id in s
  {
    if forall id :: id !in s {
      assert false;
    }
  }

  /** `query(...).filter(name == n).first()`: the row carrying the name, if any. */
  method FindByName(names: map<int, string>, n: string) returns (r: Option<int>)
    ensures r.Some? ==> r.value in names && names[r.value] == n
    ensures r.None? <==> !Named(names, n)
  {
    var rest := names.Keys;
    while rest != {}
      invariant rest <= names.Keys
      invariant forall id :: id in names && id !in rest ==> names[id] != n
      decreases rest
    {
      SomeId(rest);
      var id :| id in rest;
      if names[id] == n {
        return Some(id);
      }
      rest := rest - {id};
    }
    return None;
  }

  /** Inserting a name no row carries keeps the names unique. */
  lemma InsertKeepsUnique(names: map<int, string>, id: int, n: string)
    requires UniqueNames(names) && !NamedOtherThan(names, n, id)
    ensures UniqueNames(names[id := n])
  {
    var names' := names[id := n];
    forall a, b | a in names' && b in names' && names'[a] == names'[b] && a != id && b != id
      ensures a == b
    {
      assert names[a] == names[b];
    }
  }

  // ---------------------------------------------------------------- row ids

  /**
   * The rowid SQLite gives a new row of a table whose INTEGER PRIMARY KEY has no
   * AUTOINCREMENT: one more than the largest in use, or 1 in an empty table.
   */
  ghost predicate IsNextRowId(keys: set<int>, id: int) {
    (forall k :: k in keys ==> k < id) && (if keys == {} then id == 1 else id - 1 in keys)
  }

  method NextRowId(keys: set<int>) returns (id: int)
    requires forall k :: k in keys ==> k > 0
    ensures IsNextRowId(keys, id) && id > 0 && id !in keys
  {
    id := 1;
    var rest := keys;
    while rest != {}
      invariant rest <= keys && id > 0
      invariant forall k :: k in keys && k !in rest ==> k < id
      invariant if keys == rest then id == 1 else id - 1 in keys
      decreases rest
    {
      SomeId(rest);
      var k :| k in rest;
      if k >= id {
        id := k + 1;
      }
      rest := rest - {k};
    }
  }

  // ---------------------------------------------------------------- resolved lines

  /** The portions of a list of resolved lines, in order. */
  function PortionsOf<K>(lines: seq<(K, Portion)>): (ps: seq<Portion>)
    ensures |ps| == |lines| && forall i :: 0 <= i < |lines| ==> ps[i] == lines[i].1
  {
    seq(|lines|, i requires 0 <= i < |lines| => lines[i].1)
  }

  /** The (key, quantity) pairs that a list of resolved lines stores as items. */
  function ItemPairs<K>(lines: seq<(K, Portion)>): (ps: seq<(K, real)>)
    ensures |ps| == |lines| && forall i :: 0 <= i < |lines| ==> ps[i] == (lines[i].0, lines[i].1.quantity)
  {
    seq(|lines|, i requires 0 <= i < |lines| => (lines[i].0, lines[i].1.quantity))
  }

  /** Every ingredient name of a recipe payload names a food. */
  ghost predicate IngredientsResolve(foods: map<int, FoodRow>, ing: seq<(string, real)>) {
    FirstUnnamed(FoodNames(foods), KeysOf(ing)) == |ing|
  }

  /** Each ingredient resolved to (food id, (food nutrients, grams)). */
  ghost function IngredientLines(foods: map<int, FoodRow>, ing: seq<(string, real)>): (lines: seq<(int, Portion)>)
    requires IngredientsResolve(foods, ing)
    ensures |lines| == |ing|
    ensures forall i :: 0 <= i < |ing| ==>
      var id := IdOf(FoodNames(foods), ing[i].0);
      id in foods && lines[i] == (id, Portion(foods[id].nutrients, ing[i].1))
    ensures forall i :: 0 <= i < |ing| ==> lines[i].0 in foods && foods[lines[i].0].name == ing[i].0
  {
    assert forall i :: 0 <= i < |ing| ==> Named(FoodNames(foods), KeysOf(ing)[i]);
    seq(|ing|, i requires 0 <= i < |ing| =>
      var id := IdOf(FoodNames(foods), ing[i].0);
      (id, Portion(foods[id].nutrients, ing[i].1)))
  }

  /** The nutrients a recipe caches: the aggregate over (food nutrients, grams). */
  ghost function RecipeTotal(foods: map<int, FoodRow>, ing: seq<(string, real)>): NutrientVector
    requires IngredientsResolve(foods, ing)
  {
    Aggregate(PortionsOf(IngredientLines(foods, ing)))
  }

  /** The recipe items a recipe stores: food id to grams. */
  ghost function RecipeItemsFor(foods: map<int, FoodRow>, ing: seq<(string, real)>): map<int, real>
    requires IngredientsResolve(foods, ing)
  {
    DictOf(ItemPairs(IngredientLines(foods, ing)))
  }

  /** The names of the single-name food entries of a meal, in order. */
  function FoodEntryNames(entries: seq<map<string, real>>): (ns: seq<string>)
    requires forall i :: 0 <= i < |entries| ==> |entries[i]| == 1
    ensures |ns| == |entries| && forall i :: 0 <= i < |entries| ==> ns[i] == OnlyKey(entries[i])
  {
    seq(|entries|, i requires 0 <= i < |entries| => OnlyKey(entries[i]))
  }

  /** Every recipe name and every food entry name of a validated meal payload resolves. */
  ghost predicate MealResolves(recipes: map<int, RecipeRow>, foods: map<int, FoodRow>, p: MealPayload) {
    && (forall i :: 0 <= i < |p.foods| ==> FoodEntryIsValid(p.foods[i]))
    && FirstUnnamed(RecipeNames(recipes), p.recipes) == |p.recipes|
    && FirstUnnamed(FoodNames(foods), FoodEntryNames(p.foods)) == |p.foods|
  }

  /** Each named recipe as one serving: (recipe nutrients, 100). */
  ghost function RecipeServingLines(recipes: map<int, RecipeRow>, names: seq<string>): (lines: seq<(Component, Portion)>)
    requires FirstUnnamed(RecipeNames(recipes), names) == |names|
    ensures |lines| == |names|
    ensures forall i :: 0 <= i < |names| ==>
      var id := IdOf(RecipeNames(recipes), names[i]);
      id in recipes && lines[i] == (Component(RecipeComponent, id), Portion(recipes[id].nutrients, 100.0))
    ensures forall i :: 0 <= i < |names| ==> lines[i].0.id in recipes && recipes[lines[i].0.id].name == names[i]
  {
    seq(|names|, i requires 0 <= i < |names| =>
      var id := IdOf(RecipeNames(recipes), names[i]);
      (Component(RecipeComponent, id), Portion(recipes[id].nutrients, 100.0)))
  }

  /** Each food entry as (food nutrients, grams). */
  ghost function FoodEntryLines(foods: map<int, FoodRow>, entries: seq<map<string, real>>): (lines: seq<(Component, Portion)>)
    requires forall i :: 0 <= i < |entries| ==> |entries[i]| == 1
    requires FirstUnnamed(FoodNames(foods), FoodEntryNames(entries)) == |entries|
    ensures |lines| == |entries|
    ensures forall i :: 0 <= i < |entries| ==>
      var n := OnlyKey(entries[i]);
      var id := IdOf(FoodNames(foods), n);
      id in foods && lines[i] == (Component(FoodComponent, id), Portion(foods[id].nutrients, entries[i][n]))
    ensures forall i :: 0 <= i < |entries| ==>
      lines[i].0.id in foods && foods[lines[i].0.id].name == OnlyKey(entries[i]) && lines[i].1.quantity == entries[i][OnlyKey(entries[i])]
  {
    seq(|entries|, i requires 0 <= i < |entries| =>
      var n := OnlyKey(entries[i]);
      assert n == FoodEntryNames(entries)[i];
      var id := IdOf(FoodNames(foods), n);
      (Component(FoodComponent, id), Portion(foods[id].nutrients, entries[i][n])))
  }

  /** The recipes of a meal, then its foods. */
  ghost function MealLines(recipes: map<int, RecipeRow>, foods: map<int, FoodRow>, p: MealPayload): seq<(Component, Portion)>
    requires MealResolves(recipes, foods, p)
  {
    RecipeServingLines(recipes, p.recipes) + FoodEntryLines(foods, p.foods)
  }

  /** The nutrients a meal caches. */
  ghost function MealTotal(recipes: map<int, RecipeRow>, foods: map<int, FoodRow>, p: MealPayload): NutrientVector
    requires MealResolves(recipes, foods, p)
  {
    Aggregate(PortionsOf(MealLines(recipes, foods, p)))
  }

  /** The meal items a meal stores: component to quantity. */
  ghost function MealItemsFor(recipes: map<int, RecipeRow>, foods: map<int, FoodRow>, p: MealPayload): map<Component, real>
    requires MealResolves(recipes, foods, p)
  {
    DictOf(ItemPairs(MealLines(recipes, foods, p)))
  }
}
