# Fetch Desserts: a verified model of the meal view model and the recipe screen

The app lists dessert recipes from TheMealDB and shows one recipe as numbered
steps with its ingredients, with a Read/Stop button for speech. This project
models two parts of it in Dafny.

- **The meal view model.** `MealsViewModel` is an observable object with three
  slots: `meals`, `selectedMeal` and `mealDetail`. `fetchDessertMeals` decodes
  the dessert list. It keeps only the entries with a non-empty name and a
  thumbnail that is present, and replaces `meals`. On a failure it leaves
  `meals` alone. `fetchMealDetails(for:)` builds the lookup URL and stores the
  first decoded recipe in `mealDetail`. An unparsable URL, a failure or an
  empty list leaves `mealDetail` alone. Neither operation writes
  `selectedMeal`. In the model it is the class `Meals.MealsViewModel`, whose
  methods state exactly which slot changes and to what.
- **The recipe screen** (`MealDetailView`). The instructions are split on
  ". ". Each piece is trimmed of Foundation's `.whitespaces` set and the empty
  pieces are dropped. The remaining pieces are labelled "Step 1: ...",
  "Step 2: ...", and so on. The ingredient list walks fields 1 through 20 and
  keeps the present, non-empty ones. Two view flags are modelled. `isLoading`
  follows the detail slot. `isPlaying` is flipped by the Read/Stop button and
  cleared when the screen disappears. These are pure functions in
  `Instructions` and `DetailView` with lemmas about them, plus the class
  `DetailView.MealDetailView` for the flags.

How the outside world enters the model:

- A network request followed by a JSON decode is a function parameter
  `fetch: string -> FetchResult<T>`. It is applied to the URL string the source
  requests. `FetchResult` is either `Failure` (a transport or decode error) or
  `Decoded(items)` (the decoded `meals` array).
- Foundation's `URL(string:)` check is a predicate parameter `urlParses` on the
  same string.
- Each fetch method returns `published`. It says whether the `@Published` slot
  was assigned, and so whether its publisher emitted. The Swift functions
  return nothing; this flag is how the screen's `onReceive` closure is driven
  in `MealDetailView.Appear`.

The Swift definitions of `Meal`, `MealDetail` and `ingredient(at:)` are not
part of this model; minimal datatypes stand in for them. `Meal` has `id`, `strMeal` and an
optional `strMealThumb`. `MealDetail` has its id, name, instructions,
thumbnail and the raw ingredient fields in order. `Ingredient(i)` returns
ingredient field number `i`, counting from 1, and none outside the fields.

Two facts about the code shape the model:

- The list filter drops only an absent thumbnail; an empty-string thumbnail
  is kept (MealsViewModel.swift:24).
- The screen lists ingredient names only; measures are not paired with them
  (ContentView.swift:186-188).

Modules: `Wrappers` (Option), `Seqs` (order-preserving filter and its
lemmas), `Meals`, `Instructions` and `DetailView`.

## Model

| member | source | states |
|---|---|---|
| `Seqs.Filter` | MealViewModel/MealsViewModel.swift:24 | `Array.filter`: the result is no longer than the input, and every kept element is from the input and satisfies the predicate |
| `Seqs.FilterPicksOutPositions` | MealViewModel/View/ContentView.swift:164 | the filtered sequence is the input read at the ascending positions of its satisfying elements, and a position is among them exactly when its element satisfies the predicate |
| `Seqs.FilterMembers` | MealViewModel/MealsViewModel.swift:24 | an element is kept if and only if it occurs in the input and satisfies the predicate |
| `Seqs.FilterMultiplicity` | MealViewModel/MealsViewModel.swift:24 | every copy of a satisfying element is kept and no copy of any other |
| `Seqs.FilterKeepsAll` | MealViewModel/MealsViewModel.swift:24 | a sequence whose elements all satisfy the predicate is returned unchanged |
| `Seqs.FilterIdempotent` | MealViewModel/MealsViewModel.swift:24 | filtering twice is filtering once |
| `Meals.LookupURL` | MealViewModel/MealsViewModel.swift:35 | the lookup URL string is the fixed `.../lookup.php?i=` prefix followed by the meal id verbatim |
| `Meals.LookupURLInjective` | MealViewModel/MealsViewModel.swift:35 | two ids with the same lookup URL are the same id |
| `Meals.FilterMeals` | MealViewModel/MealsViewModel.swift:23-24 | every retained meal has a non-empty name and a present thumbnail |
| `Meals.FilterMealsMembers` | MealViewModel/MealsViewModel.swift:24 | a meal is retained exactly when it was decoded and has a non-empty name and a present thumbnail |
| `Meals.FilterMealsIsSubsequence` | MealViewModel/MealsViewModel.swift:24 | the retained list is the decoded list at the ascending positions of its displayable entries, and every displayable position is among them |
| `Meals.FilterMealsMultiplicity` | MealViewModel/MealsViewModel.swift:24 | each displayable meal is retained as many times as it was decoded, any other meal never |
| `Meals.FilterMealsIdempotent` | MealViewModel/MealsViewModel.swift:24 | applying the filter to retained meals changes nothing |
| `Meals.ApplePieScenario` | MealViewModel/MealsViewModel.swift:24 | a response of a nameless meal and "Apple Pie" with a thumbnail leaves exactly "Apple Pie" |
| `Meals.MealsViewModel.constructor` | MealViewModel/MealsViewModel.swift:6-12 | the three slots start as the empty list, nil and nil |
| `Meals.MealsViewModel.FetchDessertMeals` | MealViewModel/MealsViewModel.swift:17-28 | on a decoded response `meals` becomes the filtered list; on a failure it keeps its previous value; `selectedMeal` and `mealDetail` are not touched; the list only ever holds displayable meals |
| `Meals.MealsViewModel.FetchMealDetails` | MealViewModel/MealsViewModel.swift:34-53 | `mealDetail` becomes the first decoded element exactly when the URL parses, the fetch decodes and the list is non-empty, whatever its length; otherwise it keeps its previous value; `meals` and `selectedMeal` are not touched |
| `Meals.RepeatedDessertFetch` | MealViewModel/MealsViewModel.swift:17-28 | two list fetches that see the same response leave the same `meals` as one fetch |
| `Instructions.IsSpace` | MealViewModel/View/ContentView.swift:163 | the trimmed set (`.whitespaces`) contains space and tab and none of line feed, carriage return, vertical tab or form feed |
| `Instructions.TrimStart` | MealViewModel/View/ContentView.swift:163 | the result is a suffix of the input, everything removed is whitespace, and it does not start with whitespace |
| `Instructions.TrimEnd` | MealViewModel/View/ContentView.swift:163 | the result is a prefix of the input, everything removed is whitespace, and it does not end with whitespace |
| `Instructions.Trim` | MealViewModel/View/ContentView.swift:163 | the trimmed piece neither starts nor ends with a space, tab or other Zs character |
| `Instructions.TrimIsSlice` | MealViewModel/View/ContentView.swift:163 | the trim is a slice of the piece with only whitespace before and after it |
| `Instructions.TrimBlank` | MealViewModel/View/ContentView.swift:163-164 | a piece trims to the empty string exactly when every character is whitespace |
| `Instructions.TrimKeepsUnpadded` | MealViewModel/View/ContentView.swift:163 | a piece not padded with whitespace, for example one ending in a line break, is kept as it is |
| `Instructions.TrimIdempotent` | MealViewModel/View/ContentView.swift:163 | trimming twice is trimming once |
| `Instructions.Components` | MealViewModel/View/ContentView.swift:162 | splitting gives at least one piece, and the first piece is a prefix of the text |
| `Instructions.JoinComponents` | MealViewModel/View/ContentView.swift:161-162 | joining the untrimmed pieces with ". " gives back the instructions |
| `Instructions.ComponentsHaveNoSeparator` | MealViewModel/View/ContentView.swift:162 | no piece contains ". " |
| `Instructions.ComponentsUnique` | MealViewModel/View/ContentView.swift:162 | any non-empty list of ". "-free strings that joins to the text is exactly its pieces |
| `Instructions.ComponentsWithoutSeparator` | MealViewModel/View/ContentView.swift:162 | text without ". " is one piece, itself |
| `Instructions.TrimEach` | MealViewModel/View/ContentView.swift:163 | one trimmed piece per piece, none with whitespace at an edge |
| `Instructions.Steps` | MealViewModel/View/ContentView.swift:161-164 | no step is empty and no step begins or ends with whitespace |
| `Instructions.StepsFollowPieces` | MealViewModel/View/ContentView.swift:161-164 | step k is the trim of piece pos[k] with ascending positions, and a piece gives a step exactly when its trim is non-empty |
| `Instructions.StepsWithoutSeparator` | MealViewModel/View/ContentView.swift:161-164 | instructions without ". " give no step if blank and otherwise exactly their trim |
| `Instructions.StepsOfEmpty` | MealViewModel/View/ContentView.swift:161-164 | empty instructions give no steps |
| `Instructions.Decimal` | MealViewModel/View/ContentView.swift:168 | the rendering of a step number is a non-empty string of decimal digits |
| `Instructions.DecimalRoundTrip` | MealViewModel/View/ContentView.swift:168 | reading the digits back gives the number, and there is no leading zero |
| `Instructions.StepLabel` | MealViewModel/View/ContentView.swift:168 | the label of the step at index k reads back as the number k + 1 and the step's text |
| `Instructions.LabelReadBack` | MealViewModel/View/ContentView.swift:168 | a label "Step n: text" parses back to n and the text |
| `Instructions.StepLabels` | MealViewModel/View/ContentView.swift:166-168 | there is one label per step |
| `Instructions.StepLabelsNumbered` | MealViewModel/View/ContentView.swift:166-168 | label k reads back as "Step", the number k + 1 and step k, so labels are numbered consecutively from 1 |
| `DetailView.IngredientsFrom` | MealViewModel/View/ContentView.swift:186-187 | every listed line comes from a field in the walked range that is present and non-empty, carries that field's text, and field numbers ascend strictly |
| `DetailView.Ingredients` | MealViewModel/View/ContentView.swift:186-187 | each listed line is a field from 1 through 20 that is present and non-empty, carries its text, with field numbers strictly ascending |
| `DetailView.BulletLines` | MealViewModel/View/ContentView.swift:188 | one line per listed ingredient: the bullet "• " followed by the ingredient's name |
| `DetailView.IngredientsFromComplete` | MealViewModel/View/ContentView.swift:186-187 | a field number in the walked range is listed exactly when its ingredient is present and non-empty |
| `DetailView.IngredientsExactly` | MealViewModel/View/ContentView.swift:186-187 | the ingredient list holds exactly the fields 1 through 20 that are present and non-empty, in ascending order |
| `DetailView.SugarFlourScenario` | MealViewModel/View/ContentView.swift:186-187 | Sugar, an absent field 2 and Flour list as Sugar then Flour |
| `DetailView.SpeechText` | MealViewModel/View/ContentView.swift:134 | the spoken text is the loaded instructions, or "No instructions available" when no detail is loaded |
| `DetailView.Content` | MealViewModel/View/ContentView.swift:149-200 | the spinner shows exactly while loading; "Meal detail not found" exactly when not loading and no detail is present; otherwise the step labels and bullet lines of the loaded detail |
| `DetailView.ContentWhenInSync` | MealViewModel/View/ContentView.swift:149-200 | while `isLoading` equals "detail is nil", the spinner shows exactly when no detail is loaded and "Meal detail not found" never shows |
| `DetailView.MealDetailView.constructor` | MealViewModel/View/ContentView.swift:57-63 | `isLoading` starts true and `isPlaying` false |
| `DetailView.MealDetailView.ReceiveMealDetail` | MealViewModel/View/ContentView.swift:211-213 | after a delivered detail value, `isLoading` is true exactly when that value is nil |
| `DetailView.MealDetailView.Appear` | MealViewModel/View/ContentView.swift:206-213 | after the screen's detail fetch, `mealDetail` is as `fetchMealDetails` leaves it and `isLoading` equals `mealDetail == nil` |
| `DetailView.MealDetailView.ButtonLabel` | MealViewModel/View/ContentView.swift:138 | the button reads "Stop" exactly when `isPlaying`, and "Read" otherwise |
| `DetailView.MealDetailView.TapPlayButton` | MealViewModel/View/ContentView.swift:130-137 | the press flips `isPlaying`; it asks to speak the instructions or the fallback text when not playing, and to stop speaking when playing |
| `DetailView.MealDetailView.Disappear` | MealViewModel/View/ContentView.swift:214-220 | after the screen disappears `isPlaying` is false, and speech is stopped exactly when it was playing |
| `DetailView.MealDetailView.Body` | MealViewModel/View/ContentView.swift:148-201 | while `isLoading` follows the detail slot, the screen never shows "Meal detail not found" |

## Left out

- `URLSession` and `JSONDecoder`: foreign calls, replaced by the `fetch` parameter and `FetchResult`.
- `URL(string:)` validity: a Foundation parser, replaced by the `urlParses` parameter. The force-unwrapped dessert URL is a constant.
- async/await suspension and overlapping fetches of the same operation (last writer wins): concurrency. Each fetch runs to completion in one step.
- `Appear`: the order of the subscription's first delivery and the fetch task is fixed as delivery first. SwiftUI does not promise this order.
- SwiftUI layout: the list screen, `NavigationView`, `AsyncImage` load phases, the sheet, fonts, colours, shadows and padding.
- `isImageTapped`: a pure UI toggle of the image sheet.
- `AVSpeechSynthesizer` speak and stop, the voice and the rate 0.4: a foreign audio API. The model returns the request made of the synthesizer: speak a text, or stop.
- Floating-point values such as the speech rate, opacities and frame sizes.
- `print` diagnostics: logging only; every error path leaves the state unchanged.
- The measure fields of a recipe: the screen does not show them.
- Instructions.Components: strings are sequences of Unicode scalar values. Foundation's search is not literal, so its treatment of ". " followed by a combining mark is not modelled.
