# Nutrition store: a verified model of `db_config.py`

This project models the data layer of a meal-planning application. The data layer keeps five tables:

- `foods`: nutrients per 100 g;
- `recipes`: a cached absolute total;
- `recipe_items`: recipe, food, grams;
- `meals`: a date and a cached absolute total;
- `meal_items`: meal, component kind, component id, quantity.

The model covers three parts of that layer:

- the Pydantic validators on the request payloads;
- the nutrient aggregation `calculate_total_nutrients` and the scaled lookups built on the same law;
- the create, read, update and delete operations on foods, recipes and meals.

Each operation runs in one database session. Every operation except `create_meal` as written either commits all of its changes or, when it raises, leaves every table as it was; the model states that as `unchanged(this)` on each of their error paths. `create_meal` as written commits the meal row before its items, so one of its failures leaves the row behind (see Findings).

Modules, one per file:

- `Wrappers` (`wrappers.dfy`): `Option` and `Result`.
- `Dicts` (`dicts.dfy`): Python dicts and primary-keyed inserts over ordered (key, value) lists.
  - `DictOf` builds the dict a list of pairs produces, a later pair overwriting an earlier one.
  - `InsertRows` is the insert loop that fails on a repeated key.
- `Nutrients` (`nutrients.dfy`): the four-field nutrient vector.
  - `Aggregate` is the left fold `calculate_total_nutrients` computes.
  - `CalculateTotalNutrients` is that loop, proved equal to the fold.
  - Algebraic facts about the fold: non-negativity, append, order independence, and recipes counted at 100 being unscaled.
- `Validation` (`validation.dfy`): the payload datatypes and the six validators. Each validator returns the first error or `None`. Python's `str.strip` is modelled for the recipe-name check.
- `Tables` (`tables.dfy`): row datatypes, the `StoreError` cases, and name lookup (unique names, the first unknown name, `query(...).filter(name == n).first()`).
  - SQLite's rowid rule for new ids.
  - The *resolved lines* of a recipe or a meal: (key, (nutrients, quantity)) per ingredient, recipe serving or food entry. The cached total and the stored item set are both derived from these lines.
- `Composition` (`composition.dfy`): what a resolved recipe or meal stores.
  - The exact item set.
  - When meal items collide: exactly when a recipe name or a food name repeats.
  - The meal total split into recipe totals plus scaled foods.
  - The ingredient view that reads a recipe back, proved to round-trip the ingredient dict.
- `Resolve` (`resolve.dfy`): the lookup loops run before any write. They stop at the first unknown name. The same module holds the check that a food is still referenced.
- `Store` (`store.dfy`): the class `NutritionStore`, whose five map-valued fields are the tables.
  - `Valid()` is the schema invariant: positive ids, unique names, non-negative nutrients, item sets exactly for existing parents, the RESTRICT foreign key from recipe items to foods, and recipe meal items naming existing recipes at quantity 100.
  - Every operation keeps `Valid()` and states its whole new state.
- `Scenarios` (`scenarios.dfy`): concrete scenarios whose outcomes are proved. Lentils at {116 kcal, 9 g protein, 0.4 g fat, 20 g carbohydrate}, a stew of 200 g of them, and meals built from both.
  - The lunch totals to {290, 22.5, 1.0, 50}.
  - The stale cache after a food edit.
  - The duplicate-recipe meal, worked through both versions of `create_meal` (see Findings).

Conventions:

- Floating-point values are mathematical reals.
- Tables are maps keyed by primary key: recipe items as recipe id → food id → grams, meal items as meal id → component → quantity.
- Names are compared exactly, as SQLite's `=` on text does.

## Model

| member | source | states |
|---|---|---|
| Nutrients.Scale | db_config.py:322 | Scaling to 100 g leaves a per-100 g vector as it is; non-negative nutrients at a non-negative quantity stay non-negative |
| Nutrients.CalculateTotalNutrients | db_config.py:331-340 | The loop that starts every field at zero and adds `value * qty / 100` per item returns the fold `Aggregate`; an empty list gives the zero vector |
| Nutrients.AggregateNonNegative | db_config.py:331-340 | Non-negative nutrients at non-negative quantities aggregate to a non-negative vector |
| Nutrients.AggregateOfOne | db_config.py:322 | One portion aggregates to its nutrients times grams / 100 on each field, which is the scaling of `get_food_and_nutrients` |
| Nutrients.AggregateAppend | db_config.py:331-340 | Aggregating a concatenation adds the two aggregates |
| Nutrients.AggregatePermutation | db_config.py:331-340 | The aggregate does not depend on the order of the items: equal multisets give equal totals |
| Nutrients.ServingsAreUnscaled | db_config.py:505 | Totals counted at quantity 100 contribute unscaled: their aggregate is their plain sum |
| Dicts.DictOfExact | db_config.py:417-419 | With distinct keys, every (key, value) pair is in the resulting dict with its own value |
| Dicts.DictOfValues | db_config.py:417-419 | Every key of the dict comes from a pair with that key and value |
| Dicts.DictOfSize | db_config.py:93-102 | With distinct keys the table holds one row per inserted pair |
| Dicts.InsertRows | db_config.py:119-125 | Inserting the rows one by one succeeds exactly when no primary key repeats, and then yields the dict of the rows |
| Validation.FirstInvalidNutrient | db_config.py:144-147 | The first of the listed keys that is missing or negative; none exactly when all are present and non-negative |
| Validation.ParseNutrients | db_config.py:142-148 | A nutrients object is accepted if and only if kcal, protein_g, fat_g and carbs_g are all present and non-negative; the accepted vector carries those four values; a rejection names the first offending key in that order |
| Validation.FoodError | db_config.py:159-163 | A food is accepted if and only if its name is non-empty and its nutrients are accepted |
| Validation.FoodNutrients | db_config.py:155 | The nutrients of an accepted food are non-negative |
| Validation.TrimStart | db_config.py:191 | Leading whitespace removed: the result is a suffix, what was dropped is all whitespace, and the result does not start with whitespace |
| Validation.TrimEnd | db_config.py:191 | Trailing whitespace removed: the result is a prefix, what was dropped is all whitespace, and the result does not end with whitespace |
| Validation.Strip | db_config.py:191 | `strip()` is empty exactly when the name is all whitespace |
| Validation.FirstNonPositive | db_config.py:182-186 | The first ingredient in dict order with quantity <= 0; none exactly when all quantities are positive |
| Validation.RecipeError | db_config.py:178-193 | A recipe is accepted if and only if its name is not blank after `strip` and every ingredient quantity is positive; a blank name is the reported error exactly when the name is blank; otherwise the reported ingredient is the first in dict order with quantity <= 0 |
| Validation.OnlyKey | db_config.py:509 | The one name of a single-entry food dict |
| Validation.FoodsError | db_config.py:228-238 | A meal's food list is accepted if and only if every entry has exactly one name and a positive quantity |
| Validation.MealError | db_config.py:228-238 | A meal is accepted if and only if every food entry has exactly one name with a positive quantity |
| Validation.RecipeItemError | db_config.py:208-212 | A recipe item is accepted if and only if its grams are positive |
| Validation.MealItemError | db_config.py:247-263 | A meal item is accepted if and only if its component id and quantity are positive; a non-positive id is the reported error whenever it occurs |
| Tables.IdOfIsTheId | db_config.py:63 | Under unique names, the row carrying a name is the only one |
| Tables.FirstUnnamed | db_config.py:406-409 | The position of the first name no row carries: every earlier name resolves and that one does not |
| Tables.FindByName | db_config.py:407 | The name lookup returns a row carrying the name, and nothing exactly when no row carries it |
| Tables.InsertKeepsUnique | db_config.py:63 | Writing a name no other row carries keeps the name column unique |
| Tables.NextRowId | db_config.py:61 | A new row's id is one more than the largest id in use (1 in an empty table), hence positive and fresh |
| Tables.IngredientLines | db_config.py:406-410 | Each ingredient resolves to its food's id, nutrients and the ingredient's grams, in dict order; the food row it resolves to carries the ingredient's name |
| Tables.RecipeServingLines | db_config.py:501-505 | Each named recipe resolves to its id and its cached total at quantity 100; the recipe row it resolves to carries that name |
| Tables.FoodEntryLines | db_config.py:508-514 | Each food entry resolves to its food's id and nutrients at the entry's grams; the food row it resolves to carries the entry's name |
| Tables.FoodEntryNames | db_config.py:509 | The names of the single-name food entries, in order |
| Composition.RecipeItemKeysDistinct | db_config.py:93-102 | The recipe items a recipe inserts never repeat a (recipe, food) key, because ingredient names are distinct and food names unique |
| Composition.RecipeItemsExact | db_config.py:417-419 | A recipe's items are exactly its ingredient dict keyed by food id: one item per ingredient with its grams, and no other item |
| Composition.RecipeTotalNonNegative | db_config.py:412 | A recipe's cached total is non-negative |
| Composition.IngredientView | db_config.py:352-370 | The ingredients read back are keyed by food name, each with the stored grams and the food's nutrients, for every item whose food exists, and nothing else |
| Composition.RecipeViewRoundTrip | db_config.py:344-370 | Reading back a stored recipe gives its ingredient names and nothing else, each with the grams it was created with and the food's nutrients |
| Composition.MealComponentsDistinct | db_config.py:119-125 | A meal's items collide on (component_type, component_id) if and only if a recipe name or a food name repeats |
| Composition.DistinctComponentsHaveDistinctNames | db_config.py:522-540 | Distinct components imply no repeated recipe name and no repeated food name |
| Composition.DistinctNamesHaveDistinctComponents | db_config.py:522-540 | No repeated recipe or food name implies distinct components |
| Composition.MealItemsExact | db_config.py:522-540 | A meal stores one item per recipe at quantity 100 and one per food entry at its grams, and nothing else |
| Composition.MealItemsWellFormed | db_config.py:522-540 | Every stored meal item has a positive quantity; a recipe item names an existing recipe at 100, a food item an existing food |
| Composition.RecipeServingsAreServings | db_config.py:505 | The recipe lines of a meal are the recipes' cached totals counted as servings of 100 |
| Composition.MealTotalSplits | db_config.py:499-516 | A meal's total is the plain sum of its recipes' cached totals plus the scaled nutrients of its food entries |
| Composition.MealTotalNonNegative | db_config.py:516 | A meal's cached total is non-negative |
| Resolve.IngredientsError | db_config.py:406-409 | The lookups fail exactly when some ingredient name matches no food, and then name such an ingredient |
| Resolve.MealLookupError | db_config.py:501-513 | The lookups fail exactly when a name does not resolve; recipes are looked up first, so a food error means every recipe resolved |
| Resolve.ResolveIngredients | db_config.py:406-410 | The lookup loop fails with the first unknown ingredient name, or returns the recipe's resolved lines |
| Resolve.ResolveRecipeServings | db_config.py:501-505 | The lookup loop fails with the first unknown recipe name, or returns the recipe servings |
| Resolve.ResolveFoodEntries | db_config.py:508-514 | The lookup loop fails with the first unknown food name, or returns the food entry lines |
| Resolve.ResolveMeal | db_config.py:499-514 | A meal's lookups fail with the error `MealLookupError` names, or return the recipe lines followed by the food lines |
| Resolve.FoodIsUsed | db_config.py:98-101 | True exactly when some recipe item references the food |
| Store.WithoutComponent | db_config.py:463-466 | Every meal keeps its item set minus the items for the component, with the other quantities as they were |
| Store.FoodWriteKeepsInvariants | db_config.py:63 | Writing a food with a non-conflicting name and valid nutrients keeps the food table and the recipe-item foreign key valid |
| Store.RecipeWriteKeepsInvariants | db_config.py:79 | Writing a recipe row and its whole item set keeps names unique, totals non-negative and both item tables valid |
| Store.ItemSetWriteKeepsInvariant | db_config.py:93-102 | Replacing one recipe's item set by a valid one keeps every item pointing at an existing food with positive grams |
| Store.MealWriteKeepsInvariants | db_config.py:119-125 | Writing a meal row and its whole item set keeps the meal tables valid |
| Store.RecipeItemsFit | db_config.py:417-419 | The item set a validated, resolved recipe stores names existing foods with positive grams |
| Store.MealItemsFit | db_config.py:522-540 | The item set a resolved meal stores satisfies the meal-item invariant |
| Store.NewFoodRow | db_config.py:274 | A new food row keeps the name, category and unit, drops the market, and has non-negative nutrients |
| Store.NutritionStore.constructor | db_config.py:39-46 | A freshly created database has five empty tables |
| Store.NutritionStore.CreateFood | db_config.py:272-278 | A taken name raises and changes nothing; otherwise the food gets the next rowid and only the foods table changes |
| Store.NutritionStore.FoodById | db_config.py:281-283 | The food row with that id, or nothing when absent |
| Store.NutritionStore.UpdateFood | db_config.py:291-303 | Unknown id raises "Food not found" and a name held by another food raises, both changing nothing; otherwise all five fields are replaced and no recipe's or meal's cached total changes |
| Store.NutritionStore.DeleteFood | db_config.py:306-313 | Absent id returns false and a food still used by a recipe is refused, both changing nothing; otherwise only that food is removed |
| Store.NutritionStore.FoodAndNutrients | db_config.py:315-327 | Unknown id raises "Food not found"; otherwise the food's name, the quantity and its nutrients aggregated at that quantity |
| Store.NutritionStore.CreateRecipe | db_config.py:403-423 | An unknown ingredient raises (first one, before anything is written) and a taken name raises, both changing nothing; otherwise the new recipe caches the aggregate over its ingredients and stores exactly their item set |
| Store.NutritionStore.StoreRecipe | db_config.py:413-421 | Writing one recipe row and its whole item set keeps the store valid and changes nothing else |
| Store.NutritionStore.RecipeById | db_config.py:426-428 | The recipe row with that id, or nothing when absent |
| Store.NutritionStore.UpdateRecipe | db_config.py:436-456 | Unknown id raises "Recipe not found", then an unknown ingredient, then a name held by another recipe, each changing nothing; otherwise the row is rewritten with the new aggregate and the item set is replaced in full |
| Store.NutritionStore.DeleteRecipe | db_config.py:459-477 | Absent id returns false and changes nothing; otherwise the recipe, its items and every meal item naming it are removed, and no meal's cached total changes |
| Store.NutritionStore.RecipeWithIngredients | db_config.py:344-372 | Unknown id raises "Recipe not found"; otherwise the row's fields and its ingredients keyed by food name |
| Store.NutritionStore.RecipeAndNutrients | db_config.py:480-492 | Unknown id raises "Recipe not found"; otherwise the name, the quantity and the cached total aggregated at that quantity |
| Store.NutritionStore.CreateMeal | db_config.py:497-544 | An unresolved name raises (recipes first) and a repeated component is rejected, both changing nothing; otherwise the meal gets the next rowid, caches the aggregate over recipes at 100 and foods at their grams, and stores exactly those items |
| Store.NutritionStore.CreateMealAsWritten | db_config.py:516-544 | As above, except that a repeated component raises after the meal row has been committed: the row stays, with its total and no items |
| Store.NutritionStore.StoreMeal | db_config.py:517-519 | Writing one meal row and its whole item set keeps the store valid and changes nothing else |
| Store.NutritionStore.MealById | db_config.py:597-599 | The meal row with that id, or nothing when absent |
| Store.NutritionStore.MealWithItems | db_config.py:547-571 | Unknown id raises "Meal not found"; otherwise the meal's id, date, total and stored items |
| Store.NutritionStore.UpdateMeal | db_config.py:607-650 | Unknown id raises "Meal not found", then an unresolved name, then a repeated component, each changing nothing; otherwise date and total are rewritten and the item set is replaced in full |
| Store.NutritionStore.DeleteMeal | db_config.py:653-665 | Absent id returns false and changes nothing; otherwise the meal and only its items are removed |
| Store.NutritionStore.MealsByDate | db_config.py:667-669 | Exactly the meals whose date equals the given date, with their rows |
| Scenarios.LentilsAreValid | db_config.py:142-163 | The lentil payload is accepted and stored with its four values and no market |
| Scenarios.StewIsValid | db_config.py:178-193 | The stew payload is accepted |
| Scenarios.StewTotal | db_config.py:403-412 | 200 g of lentils resolve and cache {232, 18, 0.8, 40} |
| Scenarios.LentilStore | db_config.py:272-278 | Creating the lentils and then the stew in an empty store gives food 1 and recipe 1 |
| Scenarios.LunchLines | db_config.py:499-514 | One stew and 50 g of lentils resolve to a recipe line at 100 and a food line at 50, with no repeat |
| Scenarios.LunchTotal | db_config.py:516 | That lunch caches {290, 22.5, 1.0, 50} |
| Scenarios.LunchItems | db_config.py:522-540 | That lunch stores the stew at 100 and the lentils at 50 |
| Scenarios.LentilLunch | db_config.py:497-571 | Creating the lunch and reading it back gives meal 1 with that total and those two items |
| Scenarios.SecondsTotal | db_config.py:499-516 | Two servings of the stew resolve, repeat a component, and total {464, 36, 1.6, 80} |
| Scenarios.SecondsAsWritten | db_config.py:516-544 | Under the code as written the call fails, yet meal 1 exists with the doubled total and no items |
| Scenarios.SecondsCorrected | db_config.py:497-544 | Under the corrected behaviour the call fails and no meal exists |
| Scenarios.RicherLentilsAreValid | db_config.py:142-163 | The re-measured lentil payload is accepted with 120 kcal |
| Scenarios.RicherStewTotal | db_config.py:403-412 | With the re-measured lentils the stew would total 240 kcal |
| Scenarios.StaleStew | db_config.py:291-303 | After the lentils are edited the stew still caches 232 kcal while a fresh aggregate gives 240: update_food leaves recipe caches stale |

## Left out

- Session and engine mechanics (`get_db`, `SessionLocal`, `init_db`): these become per-call atomicity on in-memory maps. The constructor stands for a freshly initialised database.
- Concurrency between requests: each operation is one atomic step.
- Floating point: values are reals. Python `int`/`float` quantities and SQLite's `Numeric` column read back through `float()` are all one `real`.
- The `print` in `calculate_total_nutrients` and the `init_db` messages: output only.
- List order of `.all()` results: tables, ingredient views and meal items are maps keyed by their primary key. Results come back as keyed maps rather than lists, so duplicate rows cannot occur and order is not modelled.
- `get_foods`, `get_recipes`, `get_meals`, `get_recipes_with_ingredients` and `get_meals_with_items`: these list-all reads are the class's table fields themselves, or `RecipeWithIngredients` / `MealWithItems` applied to each key.
- The food `unit` column is declared Integer. SQLite keeps a non-integral value as REAL under that affinity, so the model stores the payload's value unchanged.
- Neither the `Food` schema (db_config.py:156) nor `create_food`/`update_food` (db_config.py:274, 299) checks that `unit` is positive, so `FoodError` accepts any unit.
- The `Meal` date validator (`db_config.py:222-226`): a `Date` value is well-typed by construction.
- Pydantic reports every failing field at once. The validators here return the first error in field order.
  - A missing nutrient key and a negative one are reported alike, as `InvalidNutrient(key)`.
  - Pydantic's own type-coercion errors are not modelled.
- Error messages are `StoreError` and `ValidationError` constructors, not strings.
- Store.NutritionStore.DeleteFood: a food still referenced by a recipe item is reported as `FoodInUse` with nothing changed. The code calls `db.delete` on the food. SQLAlchemy then tries to blank out `recipe_items.food_id`, a primary-key column, and raises before anything is committed. The model captures that outcome, not SQLAlchemy's exact exception.
- Food-kind meal items are not protected by any foreign key (the relationship at `db_config.py:70-74` is view-only). Deleting a food can therefore leave meal items naming a missing food, and `Valid()` allows this.
- Store.NutritionStore.RecipeWithIngredients: requires `Valid()`. The inner join at `db_config.py:352-355` can only drop an item whose food is missing, and the RESTRICT key excludes that in a valid store.
- Store.NutritionStore.UpdateRecipe and Store.NutritionStore.UpdateMeal: the bulk delete of old items and the re-insert happen in one session and commit together, so they are modelled as one replacement of the item set.

## Findings

| source | as written | input that shows it | evidently intended | confidence | as-written member | corrected member |
|---|---|---|---|---|---|---|
| db_config.py:516-544 | `create_meal` commits the meal row (line 519) before adding its items. When two items share (component_type, component_id), the second commit (line 542) fails: the call raises, yet the meal row stays in the table with its total and no items | A meal whose `recipes` lists the same recipe twice, e.g. `["R1", "R1"]`, or whose `foods` names the same food twice | Reject the meal and store nothing, as `update_meal` does with a single commit | not executed | Store.NutritionStore.CreateMealAsWritten | Store.NutritionStore.CreateMeal |
