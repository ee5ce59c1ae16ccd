/**
  The detail screen of one meal: which ingredients it lists, what it shows
  while loading, and the two view flags `isLoading` and `isPlaying` that its
  closures update.
 */
module DetailView {
  import opened Wrappers
  import opened Meals
  import opened Instructions

  /** The detail screen walks the ingredient fields numbered 1 through 20. */
  const LastIngredientIndex: nat := 20

  const NoInstructions: string := "No instructions available"
  const StopLabel: string := "Stop"
  const ReadLabel: string := "Read"
  const Bullet: string := "• "

  /** An ingredient the screen lists, with the field number it came from. */
  datatype IngredientLine = IngredientLine(index: nat, name: string)

  /** The ingredient field numbered `index` is present and not the empty string. */
  predicate Listed(d: MealDetail, index: int)
  {
    d.Ingredient(index).Some? && d.Ingredient(index).value != []
  }

  /** The listed ingredients among the fields numbered `from` through 20, in ascending order. */
  function IngredientsFrom(d: MealDetail, from: nat): (lines: seq<IngredientLine>)
    ensures forall k :: 0 <= k < |lines| ==>
      from <= lines[k].index <= LastIngredientIndex && Listed(d, lines[k].index)
      && d.Ingredient(lines[k].index) == Some(lines[k].name)
    ensures forall k, l :: 0 <= k < l < |lines| ==> lines[k].index < lines[l].index
    decreases LastIngredientIndex + 1 - from
  {
    if from > LastIngredientIndex then []
    else
      var rest := IngredientsFrom(d, from + 1);
      (if Listed(d, from) then [IngredientLine(from, d.Ingredient(from).value)] else []) + rest
  }

  /** `ForEach(1...20)` with the present, non-empty ingredients kept. */
  function Ingredients(d: MealDetail): (lines: seq<IngredientLine>)
    ensures forall k :: 0 <= k < |lines| ==>
      1 <= lines[k].index <= LastIngredientIndex && Listed(d, lines[k].index)
      && d.Ingredient(lines[k].index) == Some(lines[k].name)
    ensures forall k, l :: 0 <= k < l < |lines| ==> lines[k].index < lines[l].index
  {
    IngredientsFrom(d, 1)
  }

  /** The field numbers of the listed ingredients, in list order. */
  function IndicesOf(lines: seq<IngredientLine>): seq<nat>
  {
    if lines == [] then [] else [lines[0].index] + IndicesOf(lines[1..])
  }

  lemma {:induction false} IngredientsFromComplete(d: MealDetail, from: nat, j: int)
    ensures j in IndicesOf(IngredientsFrom(d, from)) <==> from <= j <= LastIngredientIndex && Listed(d, j)
    decreases LastIngredientIndex + 1 - from
  {
    var lines := IngredientsFrom(d, from);
    if from > LastIngredientIndex {
      assert lines == [];
    } else {
      IngredientsFromComplete(d, from + 1, j);
      var rest := IngredientsFrom(d, from + 1);
      if Listed(d, from) {
        assert lines == [IngredientLine(from, d.Ingredient(from).value)] + rest;
        assert lines[1..] == rest;
        assert IndicesOf(lines) == [from] + IndicesOf(rest);
        assert (j in IndicesOf(lines)) == (j == from || j in IndicesOf(rest));
      } else {
        assert lines == rest;
      }
    }
  }

  /**
    The ingredient list holds exactly the field numbers 1 through 20 whose
    ingredient is present and non-empty, each once, in ascending order.
   */
  lemma IngredientsExactly(d: MealDetail)
    ensures forall j :: j in IndicesOf(Ingredients(d)) <==> 1 <= j <= LastIngredientIndex && Listed(d, j)
    ensures forall k, l :: 0 <= k < l < |Ingredients(d)| ==> Ingredients(d)[k].index < Ingredients(d)[l].index
  {
    forall j | true
      ensures j in IndicesOf(Ingredients(d)) <==> 1 <= j <= LastIngredientIndex && Listed(d, j)
    {
      IngredientsFromComplete(d, 1, j);
    }
  }

  lemma {:induction false} NoneListedFrom(d: MealDetail, from: nat)
    requires forall i :: from <= i <= LastIngredientIndex ==> !Listed(d, i)
    ensures IngredientsFrom(d, from) == []
    decreases LastIngredientIndex + 1 - from
  {
    if from <= LastIngredientIndex {
      NoneListedFrom(d, from + 1);
    }
  }

  /** Sugar, an absent second field and Flour list as Sugar then Flour; field 2 is skipped. */
  lemma SugarFlourScenario(d: MealDetail)
    requires d.Ingredient(1) == Some("Sugar") && d.Ingredient(2) == None && d.Ingredient(3) == Some("Flour")
    requires forall i :: 4 <= i <= LastIngredientIndex ==> d.Ingredient(i).None?
    ensures Ingredients(d) == [IngredientLine(1, "Sugar"), IngredientLine(3, "Flour")]
  {
    NoneListedFrom(d, 4);
    assert IngredientsFrom(d, 3) == [IngredientLine(3, "Flour")];
    assert IngredientsFrom(d, 2) == IngredientsFrom(d, 3);
  }

  /** The text handed to the speech synthesizer when reading starts. */
  function SpeechText(detail: Option<MealDetail>): (text: string)
    ensures detail.None? ==> text == NoInstructions
    ensures detail.Some? ==> text == detail.value.strInstructions
  {
    match detail
    case Some(d) => d.strInstructions
    case None => NoInstructions
  }

  /** What a press of the Read/Stop button asks of the speech synthesizer. */
  datatype SpeechRequest = Speak(text: string) | StopSpeaking

  /** What the lower half of the screen shows. */
  datatype Screen =
    | Loading
    | Recipe(stepLabels: seq<string>, ingredientLines: seq<string>)
    | DetailNotFound

  /** The text of each listed ingredient: a bullet, then the ingredient's name. */
  function BulletLines(lines: seq<IngredientLine>): (r: seq<string>)
    ensures |r| == |lines|
    ensures forall k :: 0 <= k < |r| ==>
      |r[k]| == |Bullet| + |lines[k].name| && r[k][..|Bullet|] == Bullet && r[k][|Bullet|..] == lines[k].name
  {
    seq(|lines|, k requires 0 <= k < |lines| => Bullet + lines[k].name)
  }

  /** The recipe part of the screen for a given loading flag and detail slot. */
  function Content(isLoading: bool, detail: Option<MealDetail>): (screen: Screen)
    ensures screen.Loading? <==> isLoading
    ensures screen.DetailNotFound? <==> !isLoading && detail.None?
    ensures screen.Recipe? ==>
      (detail.Some?
       && screen.stepLabels == StepLabels(Steps(detail.value.strInstructions))
       && screen.ingredientLines == BulletLines(Ingredients(detail.value)))
  {
    if isLoading then Loading
    else match detail
      case Some(d) => Recipe(StepLabels(Steps(d.strInstructions)), BulletLines(Ingredients(d)))
      case None => DetailNotFound
  }

  /**
    While `isLoading` follows the detail slot, the screen shows a spinner
    exactly when no detail is loaded, the recipe of the loaded detail
    otherwise, and never the "not found" text.
   */
  lemma ContentWhenInSync(detail: Option<MealDetail>)
    ensures Content(detail.None?, detail) != DetailNotFound
    ensures Content(detail.None?, detail).Loading? <==> detail.None?
    ensures detail.Some? ==> Content(detail.None?, detail).stepLabels == StepLabels(Steps(detail.value.strInstructions))
  {
  }

  class MealDetailView {
    const viewModel: MealsViewModel
    const meal: Meal
    var isLoading: bool
    var isPlaying: bool

    constructor (viewModel: MealsViewModel, meal: Meal)
      ensures this.viewModel == viewModel && this.meal == meal
      ensures isLoading && !isPlaying
    {
      this.viewModel := viewModel;
      this.meal := meal;
      isLoading := true;
      isPlaying := false;
    }

    /** The loading flag agrees with the detail slot it observes. */
    ghost predicate InSync()
      reads this, viewModel
    {
      isLoading == viewModel.mealDetail.None?
    }

    /** The `onReceive` closure: the detail publisher delivered `value`. */
    method ReceiveMealDetail(value: Option<MealDetail>)
      modifies this`isLoading
      ensures isLoading == value.None?
      ensures isPlaying == old(isPlaying)
    {
      isLoading := value == None;
    }

    /**
      The screen appears: the publisher first delivers the slot's current
      value, then the detail fetch runs, and an assignment to the slot is
      delivered again. Afterwards the loading flag follows the slot.
     */
    method Appear(urlParses: string -> bool, fetch: string -> FetchResult<MealDetail>)
      modifies this`isLoading, viewModel`mealDetail
      ensures InSync()
      ensures var url := LookupURL(meal.id);
        viewModel.mealDetail ==
          if urlParses(url) && fetch(url).Decoded? && fetch(url).items != []
          then Some(fetch(url).items[0]) else old(viewModel.mealDetail)
      ensures isPlaying == old(isPlaying)
    {
      ReceiveMealDetail(viewModel.mealDetail);
      var published := viewModel.FetchMealDetails(meal.id, urlParses, fetch);
      if published {
        ReceiveMealDetail(viewModel.mealDetail);
      }
    }

    /** The Read/Stop button's title. */
    function ButtonLabel(): (title: string)
      reads this
      ensures title == StopLabel <==> isPlaying
      ensures !isPlaying ==> title == ReadLabel
    {
      if isPlaying then StopLabel else ReadLabel
    }

    /**
      The Read/Stop button: when not playing, reading of the instructions (or
      the fallback text) starts; when playing, speech stops. Either way the
      flag flips.
     */
    method TapPlayButton() returns (request: SpeechRequest)
      modifies this`isPlaying
      ensures isPlaying == !old(isPlaying)
      ensures request == if old(isPlaying) then StopSpeaking else Speak(SpeechText(viewModel.mealDetail))
      ensures isLoading == old(isLoading)
    {
      if isPlaying {
        request := StopSpeaking;
      } else {
        request := Speak(SpeechText(viewModel.mealDetail));
      }
      isPlaying := !isPlaying;
    }

    /** The screen goes away: speech that was playing is stopped. */
    method Disappear() returns (stopSpeaking: bool)
      modifies this`isPlaying
      ensures stopSpeaking == old(isPlaying)
      ensures !isPlaying
      ensures isLoading == old(isLoading)
    {
      stopSpeaking := isPlaying;
      if isPlaying {
        isPlaying := false;
      }
    }

    /** The recipe part of the screen as it is drawn now. */
    function Body(): (screen: Screen)
      reads this, viewModel
      ensures InSync() ==> screen != DetailNotFound
    {
      ContentWhenInSync(viewModel.mealDetail);
      Content(isLoading, viewModel.mealDetail)
    }
  }
}
