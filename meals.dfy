/**
  The meal view model: the state holder behind the dessert list and the
  detail screen. It owns three observable slots (`meals`, `selectedMeal`,
  `mealDetail`) and two fetch operations that write them.

  The network and the JSON decoder are not modelled: a fetch is a function
  from the URL string to a `FetchResult`, and `URL(string:)` is a predicate
  on the URL string saying whether Foundation accepts it.
 */
module Meals {
  import opened Wrappers
  import opened Seqs

  /** A summary entry of the dessert list. */
  datatype Meal = Meal(id: string, strMeal: string, strMealThumb: Option<string>)

  /**
    A full recipe. `strIngredients` holds the raw fields strIngredient1,
    strIngredient2, ... in that order (the remote schema has twenty).
   */
  datatype MealDetail = MealDetail(
    idMeal: string,
    strMeal: string,
    strInstructions: string,
    strMealThumb: Option<string>,
    strIngredients: seq<Option<string>>)
  {
    /** The ingredient field numbered `index` (counting from 1); absent outside the fields. */
    function Ingredient(index: int): (r: Option<string>)
      ensures r.Some? ==> 1 <= index <= |strIngredients|
    {
      if 1 <= index <= |strIngredients| then strIngredients[index - 1] else None
    }
  }

  /** What a GET followed by a JSON decode produced: a transport or decode error, or the decoded `meals` array. */
  datatype FetchResult<T> = Failure | Decoded(items: seq<T>)

  const DessertURL: string := "https://www.themealdb.com/api/json/v1/1/filter.php?c=Dessert"
  const LookupPrefix: string := "https://www.themealdb.com/api/json/v1/1/lookup.php?i="

  /** The lookup URL string for one meal: the fixed prefix followed by the id, unescaped. */
  function LookupURL(mealID: string): (url: string)
    ensures |url| == |LookupPrefix| + |mealID|
    ensures url[..|LookupPrefix|] == LookupPrefix
    ensures url[|LookupPrefix|..] == mealID
  {
    LookupPrefix + mealID
  }

  /** Distinct ids give distinct lookup URLs. */
  lemma LookupURLInjective(a: string, b: string)
    requires LookupURL(a) == LookupURL(b)
    ensures a == b
  {
    assert a == LookupURL(a)[|LookupPrefix|..];
  }

  /** The filter of the dessert list: a non-empty name and a thumbnail that is present (possibly empty). */
  predicate Displayable(m: Meal)
  {
    m.strMeal != [] && m.strMealThumb.Some?
  }

  /** The dessert list with the entries that cannot be displayed removed. */
  function FilterMeals(decoded: seq<Meal>): (r: seq<Meal>)
    ensures forall m :: m in r ==> Displayable(m)
  {
    Filter(Displayable, decoded)
  }

  /** A meal is in the filtered list exactly when it was decoded and is displayable. */
  lemma FilterMealsMembers(decoded: seq<Meal>, m: Meal)
    ensures m in FilterMeals(decoded) <==> m in decoded && Displayable(m)
  {
    FilterMembers(Displayable, decoded, m);
  }

  /**
    The filtered list is the subsequence of the decoded list at the positions
    of its displayable entries, in response order; `pos` lists those positions.
   */
  lemma FilterMealsIsSubsequence(decoded: seq<Meal>) returns (pos: seq<nat>)
    ensures PicksOut(pos, FilterMeals(decoded), decoded)
    ensures forall i :: 0 <= i < |decoded| ==> (Displayable(decoded[i]) <==> i in pos)
  {
    FilterPicksOutPositions(Displayable, decoded);
    pos := Positions(Displayable, decoded);
  }

  /** Every copy of a displayable meal survives the filter. */
  lemma FilterMealsMultiplicity(decoded: seq<Meal>, m: Meal)
    ensures multiset(FilterMeals(decoded))[m] == if Displayable(m) then multiset(decoded)[m] else 0
  {
    FilterMultiplicity(Displayable, decoded, m);
  }

  /** Applying the filter to its own output changes nothing. */
  lemma FilterMealsIdempotent(decoded: seq<Meal>)
    ensures FilterMeals(FilterMeals(decoded)) == FilterMeals(decoded)
  {
    FilterIdempotent(Displayable, decoded);
  }

  /** The two-entry response with one nameless meal keeps only "Apple Pie". */
  lemma ApplePieScenario(nameless: Meal, pie: Meal)
    requires nameless.strMeal == ""
    requires pie.strMeal == "Apple Pie" && pie.strMealThumb == Some("http://x/y.jpg")
    ensures FilterMeals([nameless, pie]) == [pie]
  {
    assert !Displayable(nameless) && Displayable(pie);
    assert [nameless, pie][1..] == [pie];
    assert [pie][1..] == [];
    assert Filter(Displayable, [pie]) == [pie] + Filter(Displayable, []);
    assert Filter(Displayable, [nameless, pie]) == Filter(Displayable, [pie]);
  }

  class MealsViewModel {
    var meals: seq<Meal>
    var selectedMeal: Option<MealDetail>
    var mealDetail: Option<MealDetail>

    /** The list slot only ever holds displayable meals. */
    ghost predicate Valid()
      reads this
    {
      forall m :: m in meals ==> Displayable(m)
    }

    constructor ()
      ensures Valid()
      ensures meals == [] && selectedMeal == None && mealDetail == None
    {
      meals := [];
      selectedMeal := None;
      mealDetail := None;
    }

    /**
      Loads the dessert list. On success `meals` is replaced by the filtered
      list; on a failure nothing changes. `published` tells whether the slot
      was assigned (and so whether its publisher emitted).
     */
    method FetchDessertMeals(fetch: string -> FetchResult<Meal>) returns (published: bool)
      requires Valid()
      modifies this`meals
      ensures Valid()
      ensures published == fetch(DessertURL).Decoded?
      ensures meals == if published then FilterMeals(fetch(DessertURL).items) else old(meals)
      ensures selectedMeal == old(selectedMeal) && mealDetail == old(mealDetail)
    {
      var response := fetch(DessertURL);
      match response
      case Decoded(items) =>
        meals := FilterMeals(items);
        published := true;
      case Failure =>
        published := false;
    }

    /**
      Loads the recipe of one meal. The slot `mealDetail` takes the first
      decoded element; an unparsable URL, a failed fetch or decode, or an
      empty list leaves it unchanged.
     */
    method FetchMealDetails(mealID: string, urlParses: string -> bool, fetch: string -> FetchResult<MealDetail>)
      returns (published: bool)
      modifies this`mealDetail
      ensures published <==>
        urlParses(LookupURL(mealID)) && fetch(LookupURL(mealID)).Decoded? && fetch(LookupURL(mealID)).items != []
      ensures mealDetail == if published then Some(fetch(LookupURL(mealID)).items[0]) else old(mealDetail)
      ensures meals == old(meals) && selectedMeal == old(selectedMeal)
    {
      var mealURLString := LookupURL(mealID);
      if !urlParses(mealURLString) {
        return false;
      }
      var response := fetch(mealURLString);
      match response
      case Decoded(items) =>
        if items != [] {
          mealDetail := Some(items[0]);
          published := true;
        } else {
          published := false;
        }
      case Failure =>
        published := false;
    }
  }

  /** Two list fetches that see the same response leave the same list. */
  method RepeatedDessertFetch(vm: MealsViewModel, fetch: string -> FetchResult<Meal>)
    requires vm.Valid()
    modifies vm`meals
    ensures vm.Valid()
    ensures fetch(DessertURL).Decoded? ==> vm.meals == FilterMeals(fetch(DessertURL).items)
    ensures fetch(DessertURL).Failure? ==> vm.meals == old(vm.meals)
  {
    var first := vm.FetchDessertMeals(fetch);
    ghost var afterFirst := vm.meals;
    var second := vm.FetchDessertMeals(fetch);
    assert vm.meals == afterFirst;
  }
}
