/**
 * The request payloads of the store and their validators (the Pydantic schemas
 * Nutrients, Food, Recipe, RecipeItem, Meal and MealItem in db_config.py). Each
 * validator returns the first error in field order, or None when the payload is accepted.
 */
module Validation {
  import opened Wrappers
  import opened Nutrients
  import opened Dicts

  datatype ValidationError =
    | InvalidNutrient(key: string)        // "<key> must be non-negative" (also a missing key)
    | EmptyName                           // "Name cannot be empty"
    | NonPositiveQuantity(name: string)   // a recipe ingredient or meal food quantity <= 0
    | MalformedFoodEntry                  // a meal food entry without exactly one name
    | NonPositiveItemQuantity             // "quantity_g must be positive" / "quantity must be positive"
    | NonPositiveComponentId              // "component_id must be positive"

  /** A calendar date; dates are only ever compared for equality. */
  datatype Date = Date(year: int, month: int, day: int)

  /** A Python dict of ingredient name to grams: ordered, with distinct names. */
  type IngredientDict = s: seq<(string, real)> | KeysDistinct(s)

  /** A food as submitted; `nutrients` is the raw JSON object of the Nutrients schema. */
  datatype FoodPayload = FoodPayload(name: string, category: Option<string>, nutrients: map<string, real>,
                                     unit: Option<real>, market: Option<string>)

  datatype RecipePayload = RecipePayload(name: string, description: Option<string>, ingredients: IngredientDict)

  /** A meal as submitted: recipe names, and food entries that should each map one name to grams. */
  datatype MealPayload = MealPayload(date: Date, recipes: seq<string>, foods: seq<map<string, real>>)

  datatype RecipeItemPayload = RecipeItemPayload(recipeId: int, foodId: int, quantity: real)

  datatype ComponentType = FoodComponent | RecipeComponent

  datatype MealItemPayload = MealItemPayload(mealId: int, kind: ComponentType, componentId: int, quantity: real)

  // ---------------------------------------------------------------- Nutrients

  const NutrientKeys: seq<string> := ["kcal", "protein_g", "fat_g", "carbs_g"]

  /** The first of `keys` that the payload lacks or holds a negative value for. */
  function FirstInvalidNutrient(keys: seq<string>, m: map<string, real>): (r: Option<string>)
    ensures r.None? <==> forall i :: 0 <= i < |keys| ==> keys[i] in m && m[keys[i]] >= 0.0
    ensures r.Some? ==> r.value in keys && (r.value !in m || m[r.value] < 0.0)
    ensures r.Some? ==> exists i :: 0 <= i < |keys| && keys[i] == r.value && (keys[i] !in m || m[keys[i]] < 0.0) &&
                          forall j :: 0 <= j < i ==> keys[j] in m && m[keys[j]] >= 0.0
  {
    if keys == [] then None
    else if keys[0] !in m || m[keys[0]] < 0.0 then Some(keys[0])
    else
      var r := FirstInvalidNutrient(keys[1..], m);
      assert forall i :: 1 <= i < |keys| ==> keys[i] == keys[1..][i - 1];
      r
  }

  /** The Nutrients validator: all four fields present and non-negative. */
  function ParseNutrients(m: map<string, real>): (r: Result<NutrientVector, ValidationError>)
    ensures r.Ok? <==> forall k :: k in NutrientKeys ==> k in m && m[k] >= 0.0
    ensures r.Ok? ==> IsNonNegative(r.value)
    ensures r.Ok? ==> r.value.kcal == m["kcal"] && r.value.protein == m["protein_g"] &&
                      r.value.fat == m["fat_g"] && r.value.carbs == m["carbs_g"]
    ensures r.Err? ==> r.error.InvalidNutrient? && r.error.key in NutrientKeys &&
                       (r.error.key !in m || m[r.error.key] < 0.0)
    ensures r.Err? ==> exists i :: 0 <= i < |NutrientKeys| && r.error.key == NutrientKeys[i] &&
                         forall j :: 0 <= j < i ==> NutrientKeys[j] in m && m[NutrientKeys[j]] >= 0.0
  {
    match FirstInvalidNutrient(NutrientKeys, m)
    case Some(key) => Err(InvalidNutrient(key))
    case None =>
      assert NutrientKeys[1] == "protein_g" && NutrientKeys[2] == "fat_g" && NutrientKeys[3] == "carbs_g";
      Ok(NutrientVector(m["kcal"], m["protein_g"], m["fat_g"], m["carbs_g"]))
  }

  // ---------------------------------------------------------------- Food

  /** The Food validator: a non-empty name and valid nutrients. The unit is not checked. */
  function FoodError(f: FoodPayload): (r: Option<ValidationError>)
    ensures r.None? <==> f.name != "" && ParseNutrients(f.nutrients).Ok?
  {
    if f.name == "" then Some(EmptyName)
    else match ParseNutrients(f.nutrients)
      case Err(e) => Some(e)
      case Ok(_) => None
  }

  /** The validated nutrients of an accepted food payload. */
  function FoodNutrients(f: FoodPayload): (v: NutrientVector)
    requires FoodError(f).None?
    ensures IsNonNegative(v)
  {
    ParseNutrients(f.nutrients).value
  }

  // ---------------------------------------------------------------- str.strip

  /** Python's str.isspace for a single character. */
  predicate IsSpace(c: char) {
    c == ' ' || ('\t' <= c <= '\r') || ('\U{1C}' <= c <= '\U{1F}') || c == '\U{85}' || c == '\U{A0}' ||
    c == '\U{1680}' || ('\U{2000}' <= c <= '\U{200A}') || c == '\U{2028}' || c == '\U{2029}' ||
    c == '\U{202F}' || c == '\U{205F}' || c == '\U{3000}'
  }

  predicate IsBlank(s: string) {
    forall i :: 0 <= i < |s| ==> IsSpace(s[i])
  }

  /** `s` without its leading whitespace. */
  function TrimStart(s: string): (r: string)
    ensures |r| <= |s| && r == s[|s| - |r|..]
    ensures IsBlank(s[..|s| - |r|])
    ensures r != [] ==> !IsSpace(r[0])
  {
    if s != [] && IsSpace(s[0]) then
      var r := TrimStart(s[1..]);
      assert s[1..][..|s| - 1 - |r|] == s[1..|s| - |r|];
      r
    else s
  }

  /** `s` without its trailing whitespace. */
  function TrimEnd(s: string): (r: string)
    ensures |r| <= |s| && r == s[..|r|]
    ensures IsBlank(s[|r|..])
    ensures r != [] ==> !IsSpace(r[|r| - 1])
  {
    if s != [] && IsSpace(s[|s| - 1]) then
      var r := TrimEnd(s[..|s| - 1]);
      assert s[..|s| - 1][|r|..] == s[|r|..|s| - 1];
      r
    else s
  }

  /** Python's str.strip(): empty exactly when the string is all whitespace. */
  function Strip(s: string): (r: string)
    ensures r == [] <==> IsBlank(s)
    ensures r != [] ==> !IsSpace(r[0]) && !IsSpace(r[|r| - 1])
  {
    var t := TrimStart(s);
    var r := TrimEnd(t);
    assert r == [] ==> s == s[..|s| - |t|] + t[|r|..];
    r
  }

  // ---------------------------------------------------------------- Recipe

  /** The first ingredient, in dict order, whose quantity is not positive. */
  function FirstNonPositive(ing: seq<(string, real)>): (r: Option<string>)
    ensures r.None? <==> forall i :: 0 <= i < |ing| ==> ing[i].1 > 0.0
    ensures r.Some? ==> exists i :: 0 <= i < |ing| && ing[i].0 == r.value && ing[i].1 <= 0.0 &&
                          forall j :: 0 <= j < i ==> ing[j].1 > 0.0
  {
    if ing == [] then None
    else if ing[0].1 <= 0.0 then Some(ing[0].0)
    else
      var r := FirstNonPositive(ing[1..]);
      assert forall i :: 1 <= i < |ing| ==> ing[i] == ing[1..][i - 1];
      r
  }

  /** The Recipe validator: a name that is not blank after strip, and positive quantities. */
  function RecipeError(p: RecipePayload): (r: Option<ValidationError>)
    ensures r.None? <==> !IsBlank(p.name) && forall i :: 0 <= i < |p.ingredients| ==> p.ingredients[i].1 > 0.0
    ensures r == Some(EmptyName) <==> IsBlank(p.name)
    ensures r.Some? && r.value.NonPositiveQuantity? ==>
      exists i :: 0 <= i < |p.ingredients| && p.ingredients[i].0 == r.value.name && p.ingredients[i].1 <= 0.0 &&
        forall j :: 0 <= j < i ==> p.ingredients[j].1 > 0.0
  {
    if Strip(p.name) == "" then Some(EmptyName)
    else match FirstNonPositive(p.ingredients)
      case Some(n) => Some(NonPositiveQuantity(n))
      case None => None
  }

  // ---------------------------------------------------------------- Meal

  /** A well-formed meal food entry: exactly one name, with a positive quantity. */
  predicate FoodEntryIsValid(entry: map<string, real>) {
    |entry| == 1 && forall n :: n in entry ==> entry[n] > 0.0
  }

  lemma SingleKey(m: map<string, real>, k: string)
    requires |m| == 1 && k in m
    ensures m.Keys == {k}
  {
    assert |m.Keys - {k}| == 0;
  }

  /** The one name of a single-entry dict (`list(food_dict.keys())[0]`). */
  function OnlyKey(m: map<string, real>): (k: string)
    requires |m| == 1
    ensures k in m && m.Keys == {k}
  {
    var k :| k in m;
    SingleKey(m, k);
    k
  }

  /** The validator of a meal's `foods` list: the first malformed or non-positive entry. */
  function FoodsError(foods: seq<map<string, real>>): (r: Option<ValidationError>)
    ensures r.None? <==> forall i :: 0 <= i < |foods| ==> FoodEntryIsValid(foods[i])
  {
    if foods == [] then None
    else if |foods[0]| != 1 then Some(MalformedFoodEntry)
    else
      var name := OnlyKey(foods[0]);
      if foods[0][name] <= 0.0 then Some(NonPositiveQuantity(name))
      else
        var r := FoodsError(foods[1..]);
        assert forall i :: 1 <= i < |foods| ==> foods[i] == foods[1..][i - 1];
        r
  }

  /** The Meal validator; the date is well-typed by construction, so only `foods` is checked. */
  function MealError(p: MealPayload): (r: Option<ValidationError>)
    ensures r.None? <==> forall i :: 0 <= i < |p.foods| ==> FoodEntryIsValid(p.foods[i])
  {
    FoodsError(p.foods)
  }

  // ---------------------------------------------------------------- items

  /** The RecipeItem validator. */
  function RecipeItemError(it: RecipeItemPayload): (r: Option<ValidationError>)
    ensures r.None? <==> it.quantity > 0.0
  {
    if it.quantity <= 0.0 then Some(NonPositiveItemQuantity) else None
  }

  /** The MealItem validator: a positive component id, then a positive quantity. */
  function MealItemError(it: MealItemPayload): (r: Option<ValidationError>)
    ensures r.None? <==> it.componentId > 0 && it.quantity > 0.0
    ensures it.componentId <= 0 ==> r == Some(NonPositiveComponentId)
  {
    if it.componentId <= 0 then Some(NonPositiveComponentId)
    else if it.quantity <= 0.0 then Some(NonPositiveItemQuantity)
    else None
  }
}
