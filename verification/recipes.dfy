/** The recipe data model: ingredients tagged with food types and allergens, a
    recipe that collects both into sets, and the queries and filters over it. */
module Recipes {
  import opened Results
  import opened Sequences

  datatype FoodType = Spiciness | Meat | Vegetable | Seafood

  datatype Allergen = Fish | Soybeans | Peanuts | Milk | Wheat | Eggs | Shellfish | Nuts

  datatype Ingredient = Ingredient(unit: int, name: string, foodtypes: seq<FoodType>, allergens: seq<Allergen>, calorie: int)

  /** `foodtypes` and `allergens` are the sets the constructor fills in. */
  datatype Recipe = Recipe(name: string, ingredients: seq<Ingredient>, foodtypes: set<FoodType>, allergens: set<Allergen>)

  /** Every tag that appears in some list of `tags`. */
  function TagsOf<T(==,!new)>(tags: seq<seq<T>>): (s: set<T>)
    ensures forall t :: t in s <==> exists i :: 0 <= i < |tags| && t in tags[i]
  {
    if |tags| == 0 then {}
    else
      var rest := TagsOf(tags[1..]);
      assert forall t :: t in rest <==> exists i :: 1 <= i < |tags| && t in tags[i] by {
        forall t | t in rest
          ensures exists i :: 1 <= i < |tags| && t in tags[i]
        {
          var i :| 0 <= i < |tags[1..]| && t in tags[1..][i];
          assert t in tags[i + 1];
        }
      }
      (set t | t in tags[0]) + rest
  }

  /** Every food type some ingredient carries. */
  function FoodTypesOf(ings: seq<Ingredient>): (s: set<FoodType>)
    ensures forall f :: f in s <==> exists i :: 0 <= i < |ings| && f in ings[i].foodtypes
  {
    var tags := seq(|ings|, i requires 0 <= i < |ings| => ings[i].foodtypes);
    assert forall i :: 0 <= i < |ings| ==> tags[i] == ings[i].foodtypes;
    TagsOf(tags)
  }

  /** Every allergen some ingredient carries. */
  function AllergensOf(ings: seq<Ingredient>): (s: set<Allergen>)
    ensures forall a :: a in s <==> exists i :: 0 <= i < |ings| && a in ings[i].allergens
  {
    var tags := seq(|ings|, i requires 0 <= i < |ings| => ings[i].allergens);
    assert forall i :: 0 <= i < |ings| ==> tags[i] == ings[i].allergens;
    TagsOf(tags)
  }

  /** The `Recipe` constructor: the recipe's food types and allergens are the
      unions of its ingredients'. */
  function NewRecipe(name: string, ings: seq<Ingredient>): (r: Recipe)
    ensures r.name == name && r.ingredients == ings
    ensures forall f :: f in r.foodtypes <==> exists i :: 0 <= i < |ings| && f in ings[i].foodtypes
    ensures forall a :: a in r.allergens <==> exists i :: 0 <= i < |ings| && a in ings[i].allergens
  {
    Recipe(name, ings, FoodTypesOf(ings), AllergensOf(ings))
  }

  /** A recipe as the constructor leaves it. */
  predicate Valid(r: Recipe)
  {
    r == NewRecipe(r.name, r.ingredients)
  }

  /** `xs[i]`, which JavaScript reads as `undefined` past the end. */
  function At<T>(xs: seq<T>, i: nat): Option<T>
  {
    if i < |xs| then Some(xs[i]) else None
  }

  /** `Array.from(set).includes(x)`: `undefined` is never a member. */
  predicate Includes<T>(s: set<T>, x: Option<T>)
  {
    x.Some? && x.value in s
  }

  /** The loop of `hasFoodTypes` from index `i`: it runs over the recipe's
      ingredient count and looks up the query at the same index. */
  function ScanFoodTypes(recipe: Recipe, foodtypes: seq<FoodType>, i: nat): (b: bool)
    requires i <= |recipe.ingredients|
    ensures b <==> exists k :: i <= k < |recipe.ingredients| && k < |foodtypes| && foodtypes[k] in recipe.foodtypes
    decreases |recipe.ingredients| - i
  {
    if i == |recipe.ingredients| then false
    else Includes(recipe.foodtypes, At(foodtypes, i)) || ScanFoodTypes(recipe, foodtypes, i + 1)
  }

  /** `hasFoodTypes`: only the first `|recipe.ingredients|` query entries are looked at. */
  function HasFoodTypes(recipe: Recipe, foodtypes: seq<FoodType>): (b: bool)
    ensures b <==> exists k :: 0 <= k < |recipe.ingredients| && k < |foodtypes| && foodtypes[k] in recipe.foodtypes
  {
    ScanFoodTypes(recipe, foodtypes, 0)
  }

  /** The loop of `hasAllergens` from index `i` of the query: does some queried
      tag from `i` on belong to `tags`? */
  function ScanAny<T(==)>(tags: set<T>, query: seq<T>, i: nat): (b: bool)
    requires i <= |query|
    ensures b <==> exists k :: i <= k < |query| && query[k] in tags
    decreases |query| - i
  {
    if i == |query| then false
    else query[i] in tags || ScanAny(tags, query, i + 1)
  }

  /** `hasAllergens`: some listed allergen is among the recipe's. */
  function HasAllergens(recipe: Recipe, allergens: seq<Allergen>): (b: bool)
    ensures b <==> exists k :: 0 <= k < |allergens| && allergens[k] in recipe.allergens
  {
    ScanAny(recipe.allergens, allergens, 0)
  }

  /** The `flag` loop of the removal filters: no element of `xs` is listed in `banned`. */
  predicate NoneListed<T(==)>(xs: seq<T>, banned: seq<T>)
  {
    forall k :: 0 <= k < |xs| ==> xs[k] !in banned
  }

  function AllergenFree(allergens: seq<Allergen>): Ingredient -> bool
  {
    (ing: Ingredient) => NoneListed(ing.allergens, allergens)
  }

  function FoodTypeFree(foodtypes: seq<FoodType>): Ingredient -> bool
  {
    (ing: Ingredient) => NoneListed(ing.foodtypes, foodtypes)
  }

  /** `ingredients.map((_ingredient) => _ingredient.name)`. */
  function Names(ings: seq<Ingredient>): seq<string>
  {
    seq(|ings|, i requires 0 <= i < |ings| => ings[i].name)
  }

  function NameNotIn(names: seq<string>): Ingredient -> bool
  {
    (ing: Ingredient) => ing.name !in names
  }

  /** `removeAllergens`: a recipe of the same name holding exactly the
      ingredients that carry none of the listed allergens. */
  function RemoveAllergens(recipe: Recipe, allergens: seq<Allergen>): (r: Recipe)
    ensures Valid(r) && r.name == recipe.name
    ensures forall i :: 0 <= i < |r.ingredients| ==> r.ingredients[i] in recipe.ingredients && NoneListed(r.ingredients[i].allergens, allergens)
    ensures forall i :: 0 <= i < |recipe.ingredients| && NoneListed(recipe.ingredients[i].allergens, allergens) ==> recipe.ingredients[i] in r.ingredients
    ensures !HasAllergens(r, allergens)
  {
    var kept := Filter(recipe.ingredients, AllergenFree(allergens));
    var r := NewRecipe(recipe.name, kept);
    assert forall a :: a in r.allergens ==> a !in allergens by {
      forall a | a in r.allergens
        ensures a !in allergens
      {
        var i :| 0 <= i < |kept| && a in kept[i].allergens;
        assert AllergenFree(allergens)(kept[i]);
      }
    }
    r
  }

  /** `removeFoodTypes`: a recipe of the same name holding exactly the
      ingredients that carry none of the listed food types. */
  function RemoveFoodTypes(recipe: Recipe, foodtypes: seq<FoodType>): (r: Recipe)
    ensures Valid(r) && r.name == recipe.name
    ensures forall i :: 0 <= i < |r.ingredients| ==> r.ingredients[i] in recipe.ingredients && NoneListed(r.ingredients[i].foodtypes, foodtypes)
    ensures forall i :: 0 <= i < |recipe.ingredients| && NoneListed(recipe.ingredients[i].foodtypes, foodtypes) ==> recipe.ingredients[i] in r.ingredients
    ensures forall f :: f in r.foodtypes ==> f !in foodtypes
  {
    var kept := Filter(recipe.ingredients, FoodTypeFree(foodtypes));
    var r := NewRecipe(recipe.name, kept);
    assert forall f :: f in r.foodtypes ==> f !in foodtypes by {
      forall f | f in r.foodtypes
        ensures f !in foodtypes
      {
        var i :| 0 <= i < |kept| && f in kept[i].foodtypes;
        assert FoodTypeFree(foodtypes)(kept[i]);
      }
    }
    r
  }

  /** `removeIngredients`: a recipe of the same name holding exactly the
      ingredients whose name no ingredient of the argument carries. */
  function RemoveIngredients(recipe: Recipe, ingredients: seq<Ingredient>): (r: Recipe)
    ensures Valid(r) && r.name == recipe.name
    ensures forall i :: 0 <= i < |r.ingredients| ==>
      r.ingredients[i] in recipe.ingredients && forall j :: 0 <= j < |ingredients| ==> ingredients[j].name != r.ingredients[i].name
    ensures forall i :: 0 <= i < |recipe.ingredients| && (forall j :: 0 <= j < |ingredients| ==> ingredients[j].name != recipe.ingredients[i].name) ==>
      recipe.ingredients[i] in r.ingredients
  {
    var names := Names(ingredients);
    var kept := Filter(recipe.ingredients, NameNotIn(names));
    assert forall i :: 0 <= i < |kept| ==> NameNotIn(names)(kept[i]);
    assert forall j :: 0 <= j < |ingredients| ==> names[j] == ingredients[j].name;
    NewRecipe(recipe.name, kept)
  }

  /** The three removals keep the ingredients they retain in their original
      order: removing from a concatenation concatenates the removals. */
  lemma RemovalsKeepOrder(name: string, a: seq<Ingredient>, b: seq<Ingredient>,
                          allergens: seq<Allergen>, foodtypes: seq<FoodType>, ingredients: seq<Ingredient>)
    ensures RemoveAllergens(NewRecipe(name, a + b), allergens).ingredients
         == RemoveAllergens(NewRecipe(name, a), allergens).ingredients + RemoveAllergens(NewRecipe(name, b), allergens).ingredients
    ensures RemoveFoodTypes(NewRecipe(name, a + b), foodtypes).ingredients
         == RemoveFoodTypes(NewRecipe(name, a), foodtypes).ingredients + RemoveFoodTypes(NewRecipe(name, b), foodtypes).ingredients
    ensures RemoveIngredients(NewRecipe(name, a + b), ingredients).ingredients
         == RemoveIngredients(NewRecipe(name, a), ingredients).ingredients + RemoveIngredients(NewRecipe(name, b), ingredients).ingredients
  {
    FilterConcat(a, b, AllergenFree(allergens));
    FilterConcat(a, b, FoodTypeFree(foodtypes));
    FilterConcat(a, b, NameNotIn(Names(ingredients)));
  }

  /** Each removal keeps a lone ingredient exactly once when it passes and drops it
      otherwise; with `RemovalsKeepOrder` this fixes the kept list completely. */
  lemma RemoveAllergensOfOne(name: string, x: Ingredient, allergens: seq<Allergen>)
    ensures RemoveAllergens(NewRecipe(name, [x]), allergens).ingredients == if NoneListed(x.allergens, allergens) then [x] else []
  {
    FilterOne(x, AllergenFree(allergens));
  }

  lemma RemoveFoodTypesOfOne(name: string, x: Ingredient, foodtypes: seq<FoodType>)
    ensures RemoveFoodTypes(NewRecipe(name, [x]), foodtypes).ingredients == if NoneListed(x.foodtypes, foodtypes) then [x] else []
  {
    FilterOne(x, FoodTypeFree(foodtypes));
  }

  lemma RemoveIngredientsOfOne(name: string, x: Ingredient, ingredients: seq<Ingredient>)
    ensures RemoveIngredients(NewRecipe(name, [x]), ingredients).ingredients
         == if forall j :: 0 <= j < |ingredients| ==> ingredients[j].name != x.name then [x] else []
  {
    var names := Names(ingredients);
    FilterOne(x, NameNotIn(names));
    assert forall j :: 0 <= j < |ingredients| ==> names[j] == ingredients[j].name;
    assert x.name in names <==> exists j :: 0 <= j < |ingredients| && ingredients[j].name == x.name;
  }

  /** Removing the same allergens twice removes nothing more. */
  lemma RemoveAllergensIdempotent(recipe: Recipe, allergens: seq<Allergen>)
    ensures RemoveAllergens(RemoveAllergens(recipe, allergens), allergens) == RemoveAllergens(recipe, allergens)
  {
    FilterIdempotent(recipe.ingredients, AllergenFree(allergens));
  }

  /** Removing the same food types twice removes nothing more. */
  lemma RemoveFoodTypesIdempotent(recipe: Recipe, foodtypes: seq<FoodType>)
    ensures RemoveFoodTypes(RemoveFoodTypes(recipe, foodtypes), foodtypes) == RemoveFoodTypes(recipe, foodtypes)
  {
    FilterIdempotent(recipe.ingredients, FoodTypeFree(foodtypes));
  }

  /** An ingredient with its unit and calorie doubled. */
  function Doubled(ing: Ingredient): Ingredient
  {
    ing.(unit := ing.unit * 2, calorie := ing.calorie * 2)
  }

  /** Two ingredient lists that differ only in units and calories give a recipe
      the same food types and allergens. */
  lemma SameTags(a: seq<Ingredient>, b: seq<Ingredient>)
    requires |a| == |b|
    requires forall i :: 0 <= i < |a| ==> a[i].foodtypes == b[i].foodtypes && a[i].allergens == b[i].allergens
    ensures FoodTypesOf(a) == FoodTypesOf(b) && AllergensOf(a) == AllergensOf(b)
  {
    assert seq(|a|, i requires 0 <= i < |a| => a[i].foodtypes) == seq(|b|, i requires 0 <= i < |b| => b[i].foodtypes);
    assert seq(|a|, i requires 0 <= i < |a| => a[i].allergens) == seq(|b|, i requires 0 <= i < |b| => b[i].allergens);
  }

  /** The `map` of `doubleIngredients`: every ingredient whose name is listed in
      `names` is doubled, the rest are kept, and the recipe is rebuilt. */
  function DoubleListed(recipe: Recipe, names: seq<string>): (r: Recipe)
    ensures Valid(r) && r.name == recipe.name
    ensures |r.ingredients| == |recipe.ingredients|
    ensures forall i :: 0 <= i < |recipe.ingredients| ==>
      r.ingredients[i] == if recipe.ingredients[i].name in names then Doubled(recipe.ingredients[i]) else recipe.ingredients[i]
    ensures r.foodtypes == FoodTypesOf(recipe.ingredients) && r.allergens == AllergensOf(recipe.ingredients)
  {
    var ings := recipe.ingredients;
    var doubled := seq(|ings|, i requires 0 <= i < |ings| => if ings[i].name in names then Doubled(ings[i]) else ings[i]);
    SameTags(ings, doubled);
    NewRecipe(recipe.name, doubled)
  }

  /** `doubleIngredients`: the names to double are taken from the recipe itself,
      so every ingredient is doubled whatever the argument; names, tags and
      order stay, and so do the recipe's food types and allergens. */
  function DoubleIngredients(recipe: Recipe, ingredients: seq<Ingredient>): (r: Recipe)
    ensures Valid(r) && r.name == recipe.name
    ensures |r.ingredients| == |recipe.ingredients|
    ensures forall i :: 0 <= i < |recipe.ingredients| ==>
      && r.ingredients[i].unit == 2 * recipe.ingredients[i].unit
      && r.ingredients[i].calorie == 2 * recipe.ingredients[i].calorie
      && r.ingredients[i].name == recipe.ingredients[i].name
      && r.ingredients[i].foodtypes == recipe.ingredients[i].foodtypes
      && r.ingredients[i].allergens == recipe.ingredients[i].allergens
    ensures r.foodtypes == FoodTypesOf(recipe.ingredients) && r.allergens == AllergensOf(recipe.ingredients)
  {
    var names := Names(recipe.ingredients);
    forall i | 0 <= i < |recipe.ingredients|
      ensures recipe.ingredients[i].name in names
    {
      assert names[i] == recipe.ingredients[i].name;
    }
    DoubleListed(recipe, names)
  }

  function Calories(ings: seq<Ingredient>): seq<int>
  {
    seq(|ings|, i requires 0 <= i < |ings| => ings[i].calorie)
  }

  /** `getCalories`: the ingredients' calories added up; `None` is the TypeError
      `reduce` throws for a recipe without ingredients. */
  function GetCalories(recipe: Recipe): (r: Option<int>)
    ensures r.None? <==> |recipe.ingredients| == 0
    ensures r.Some? ==> r.value == Sum(Calories(recipe.ingredients))
  {
    ReduceAdd(Calories(recipe.ingredients))
  }

  lemma {:induction false} SumDoubled(xs: seq<int>, ys: seq<int>)
    requires |xs| == |ys| && forall i :: 0 <= i < |xs| ==> ys[i] == 2 * xs[i]
    ensures Sum(ys) == 2 * Sum(xs)
  {
    if |xs| > 0 {
      SumDoubled(xs[1..], ys[1..]);
    }
  }

  /** Doubling the ingredients doubles the recipe's calories. */
  lemma DoublingDoublesCalories(recipe: Recipe, ingredients: seq<Ingredient>)
    requires |recipe.ingredients| > 0
    ensures GetCalories(DoubleIngredients(recipe, ingredients)) == Some(2 * GetCalories(recipe).value)
  {
    var r := DoubleIngredients(recipe, ingredients);
    SumDoubled(Calories(recipe.ingredients), Calories(r.ingredients));
  }

  // `hasFoodTypes` bounds its loop by the ingredient count rather than the query
  // length, and `doubleIngredients` takes the names to double from the recipe
  // rather than from its argument. Below, each behaviour is shown on a concrete
  // input beside a definition that reads the whole query or the argument.

  /** Some queried food type is among the recipe's, wherever it sits in the query. */
  function HasAnyFoodType(recipe: Recipe, foodtypes: seq<FoodType>): (b: bool)
    ensures b <==> exists k :: 0 <= k < |foodtypes| && foodtypes[k] in recipe.foodtypes
  {
    ScanAny(recipe.foodtypes, foodtypes, 0)
  }

  /** A one-ingredient recipe of meat, queried for vegetable then meat: the loop
      stops after one index, so the match at index 1 is never seen. */
  lemma HasFoodTypesMissesLaterQuery()
    ensures var pizza := NewRecipe("pizza", [Ingredient(1, "ham", [Meat], [], 100)]);
      && !HasFoodTypes(pizza, [Vegetable, Meat])
      && HasAnyFoodType(pizza, [Vegetable, Meat])
  {
    var pizza := NewRecipe("pizza", [Ingredient(1, "ham", [Meat], [], 100)]);
    assert pizza.ingredients[1..] == [];
    assert pizza.foodtypes == {Meat};
  }

  /** The intended `doubleIngredients`: the names to double come from the argument. */
  function DoubleNamedIngredients(recipe: Recipe, ingredients: seq<Ingredient>): (r: Recipe)
    ensures Valid(r) && r.name == recipe.name
    ensures |r.ingredients| == |recipe.ingredients|
    ensures forall i :: 0 <= i < |recipe.ingredients| ==>
      r.ingredients[i] == if recipe.ingredients[i].name in Names(ingredients) then Doubled(recipe.ingredients[i]) else recipe.ingredients[i]
    ensures forall i :: 0 <= i < |recipe.ingredients| && (forall j :: 0 <= j < |ingredients| ==> ingredients[j].name != recipe.ingredients[i].name) ==>
      r.ingredients[i] == recipe.ingredients[i]
    ensures r.foodtypes == FoodTypesOf(recipe.ingredients) && r.allergens == AllergensOf(recipe.ingredients)
  {
    var names := Names(ingredients);
    assert forall j :: 0 <= j < |ingredients| ==> names[j] == ingredients[j].name;
    DoubleListed(recipe, names)
  }

  /** Asking to double only the ham of a ham-and-cheese recipe doubles the cheese too. */
  lemma DoubleIngredientsIgnoresArgument()
    ensures var ham := Ingredient(1, "ham", [Meat], [], 100);
      var cheese := Ingredient(1, "cheese", [], [Milk], 80);
      var recipe := NewRecipe("pizza", [ham, cheese]);
      && DoubleIngredients(recipe, [ham]).ingredients[1].calorie == 160
      && DoubleNamedIngredients(recipe, [ham]).ingredients[1].calorie == 80
  {
    var ham := Ingredient(1, "ham", [Meat], [], 100);
    var cheese := Ingredient(1, "cheese", [], [Milk], 80);
    var recipe := NewRecipe("pizza", [ham, cheese]);
    assert recipe.ingredients[1] == cheese;
    assert Names([ham]) == ["ham"];
    assert cheese.name !in Names([ham]);
  }
}
