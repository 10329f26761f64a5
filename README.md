# RecipeApp core in Dafny

A verified model of the two pieces of logic in the RecipeApp Android client
that have exactly stateable behaviour:

- **Recipe synchronisation** (`RecipeViewModel` in `data/Recipe.kt`). The view
  model listens to the remote "recipes" collection. On every value
  notification it walks the children in order, decodes each with
  `getValue(Recipe::class.java)`, keeps every non-null result, skips the null
  ones, and replaces its published list with the result. `addRecipe` asks the collection for a fresh key. Without
  one it returns without writing. With key `k` it writes one recipe with id
  `k` under `k`, and it never touches the published list itself.
- **Recipe-card details** (`RecipeCard` in `MainActivity.kt`). A card starts
  collapsed and each click on its toggle negates `expanded`. While collapsed
  the description is held to one line and nothing else shows. While expanded,
  each piece of `ingredients.split(",")` becomes a bullet line `"• " + trimmed
  piece`. Each piece of `directions.split(".")` that is not blank after
  trimming becomes `"• " + trimmed piece + "."`.

Files:

- `text.dfy`, module `Text`: Kotlin's `split` (one-character delimiter) and
  `trim()` as functions on strings. Split is proved against its inverse `Join`
  in both directions. Trim is characterised by the whitespace around its result.
- `recipe.dfy`, module `RecipeData`: the `Recipe` entity and its defaults.
  `Decoded` is the published list as a function of a notification. The class
  `DatabaseReference` is the remote collection: a map from key to recipe plus
  the log of writes issued to it. The class `RecipeViewModel` holds the
  published list.
- `recipe_card.dfy`, module `RecipeCard`: ingredient and direction lines, the
  rendered card as a function of `expanded`, and the class `CardState` holding
  the flag.

The Firebase reference is an in-memory store. A notification is the sequence
of what `getValue` returns for its children: `Some(recipe)`, or `None` where
it returns null, which happens for a child that holds no data. The key `push()` would hand out is a parameter of
`AddRecipe` of type `Option<string>`. An absent key models a null `key`.

Nothing in the code requires a published recipe to have a non-empty id. A
stored child without an `id` field decodes with the default `""`, and
`onDataChange` keeps it. The model keeps it too: `Decoded` keeps every
non-null result whatever its id.

The add-recipe form (`ui/theme/AddRecipeScreen.kt`) is not part of this model.
Its `directions` state (line 26) is never bound to a text field. So a recipe
added through the form always has empty directions. By
`BlankDirectionsNoLines`, its card shows no direction line.

## Model

| member | source | states |
|---|---|---|
| `RecipeData.DefaultRecipe` | app/src/main/java/com/example/recipeapp/data/Recipe.kt:13-20 | a default-constructed recipe has empty id, name, description, ingredients and directions, and the placeholder image |
| `RecipeData.Decoded` | app/src/main/java/com/example/recipeapp/data/Recipe.kt:36-42 | the rebuilt list has one element per non-null decode result: its length is the number of children minus the number whose `getValue` is null |
| `RecipeData.DecodedCounts` | app/src/main/java/com/example/recipeapp/data/Recipe.kt:37-41 | each recipe occurs in the list exactly as often as children decoded to it: every non-null result is kept and nothing else enters |
| `RecipeData.DecodedMembership` | app/src/main/java/com/example/recipeapp/data/Recipe.kt:37-41 | a recipe is in the list if and only if some child decoded to it |
| `RecipeData.DecodedConcat` | app/src/main/java/com/example/recipeapp/data/Recipe.kt:37-42 | the children are handled one at a time in order: the list for two runs of children is the first run's list followed by the second's, so the snapshot order is kept |
| `RecipeData.DecodedSingle` | app/src/main/java/com/example/recipeapp/data/Recipe.kt:38-41 | one child contributes its recipe if `getValue` gives one and nothing if it gives null |
| `RecipeData.DecodedAllSome` | app/src/main/java/com/example/recipeapp/data/Recipe.kt:36-42 | when no decode result is null, the list has as many elements as there are children and element i is child i's recipe |
| `RecipeData.DatabaseReference.constructor` | app/src/main/java/com/example/recipeapp/data/Recipe.kt:24 | a reference to the collection at a path, holding the given children, with no write issued yet |
| `RecipeData.DatabaseReference.SetChild` | app/src/main/java/com/example/recipeapp/data/Recipe.kt:65 | `child(key).setValue(value)` sets that key to the value, leaves every other key as it was, and logs exactly one write |
| `RecipeData.RecipeViewModel.constructor` | app/src/main/java/com/example/recipeapp/data/Recipe.kt:24-31 | the view model listens to the "recipes" collection, and before any notification its published list is empty |
| `RecipeData.RecipeViewModel.OnDataChange` | app/src/main/java/com/example/recipeapp/data/Recipe.kt:35-44 | the loop builds the list of non-null decode results and the published list is replaced by it: the new list is a function of the notification alone, whatever the list was before |
| `RecipeData.RecipeViewModel.OnCancelled` | app/src/main/java/com/example/recipeapp/data/Recipe.kt:46-48 | a cancellation leaves the published list unchanged |
| `RecipeData.RecipeViewModel.AddRecipe` | app/src/main/java/com/example/recipeapp/data/Recipe.kt:52-66 | with no key, nothing is written and the store is unchanged; with key k, exactly one write is issued, at k, of `Recipe()` with id k and the four given strings, so its image is the default, and every other key is untouched; the published list is never changed |
| `Text.Split` | app/src/main/java/com/example/recipeapp/MainActivity.kt:225 | `split` with a one-character delimiter: there is at least one piece; it has no further `ensures` of its own, and `JoinSplit` and `SplitJoin` make it the inverse of `Join` |
| `Text.IsWhitespace` | app/src/main/java/com/example/recipeapp/MainActivity.kt:226 | the characters `trim()` removes, `Char.isWhitespace`; a predicate without `ensures`, given as a fixed table of code points |
| `Text.Trim` | app/src/main/java/com/example/recipeapp/MainActivity.kt:226 | `trim()`; it has no `ensures` of its own, and `TrimSlice` describes it completely |
| `Text.SplitCount` | app/src/main/java/com/example/recipeapp/MainActivity.kt:225 | `split` on a one-character delimiter gives one piece more than there are delimiters, so the empty string gives one piece |
| `Text.SplitPiecesFree` | app/src/main/java/com/example/recipeapp/MainActivity.kt:225 | no piece of a split contains the delimiter |
| `Text.JoinSplit` | app/src/main/java/com/example/recipeapp/MainActivity.kt:225 | the pieces, in order and joined with the delimiter, rebuild the original string |
| `Text.SplitJoin` | app/src/main/java/com/example/recipeapp/MainActivity.kt:225 | splitting a join of delimiter-free pieces gives back exactly those pieces |
| `Text.TrimStartIndex` | app/src/main/java/com/example/recipeapp/MainActivity.kt:226 | the trim starts at the first character, at or after the given index, that is not whitespace: everything skipped is whitespace and the character found is not |
| `Text.TrimEndIndex` | app/src/main/java/com/example/recipeapp/MainActivity.kt:226 | scanning back from the end but not below the start, the trim ends just past the last character that is not whitespace: everything skipped is whitespace |
| `Text.TrimSlice` | app/src/main/java/com/example/recipeapp/MainActivity.kt:226 | `trim()` returns a slice of its input with only whitespace before and after it and no whitespace at either end; it is empty exactly when the input is all whitespace |
| `Text.TrimIdempotent` | app/src/main/java/com/example/recipeapp/MainActivity.kt:226 | trimming a trimmed string changes nothing |
| `Text.TrimKeeps` | app/src/main/java/com/example/recipeapp/MainActivity.kt:226 | trimming never introduces a character that was not in the input |
| `Text.TrimFramed` | app/src/main/java/com/example/recipeapp/MainActivity.kt:226 | a non-empty string with no whitespace at either end is its own trim |
| `RecipeCard.IngredientLines` | app/src/main/java/com/example/recipeapp/MainActivity.kt:225-227 | the ingredient lines; no `ensures` of its own, and `IngredientLinesFromPieces` describes them |
| `RecipeCard.Steps` | app/src/main/java/com/example/recipeapp/MainActivity.kt:233 | the trimmed non-blank direction pieces; no `ensures` of its own, and `StepsMembership` and `StepsConcat` describe them |
| `RecipeCard.DirectionLines` | app/src/main/java/com/example/recipeapp/MainActivity.kt:232-235 | the direction lines; no `ensures` of its own, and `DirectionLinesShape` and `BlankDirectionsNoLines` describe them |
| `RecipeCard.IngredientLinesFromPieces` | app/src/main/java/com/example/recipeapp/MainActivity.kt:225-227 | there is one ingredient line per comma plus one; line i is the bullet and then piece i trimmed; no line text holds a comma; the pieces joined with commas rebuild the ingredients string |
| `RecipeCard.EmptyIngredientsOneBullet` | app/src/main/java/com/example/recipeapp/MainActivity.kt:225-226 | an empty ingredients string still shows one bullet, with empty text |
| `RecipeCard.NonEmpty` | app/src/main/java/com/example/recipeapp/MainActivity.kt:233 | dropping the empty texts never yields more texts than there were |
| `RecipeCard.NonEmptyMembership` | app/src/main/java/com/example/recipeapp/MainActivity.kt:233-234 | a text is kept if and only if it is one of the texts and is not empty |
| `RecipeCard.NonEmptyConcat` | app/src/main/java/com/example/recipeapp/MainActivity.kt:232-235 | texts are filtered one at a time: filtering two runs gives the first run's survivors followed by the second's |
| `RecipeCard.StepsMembership` | app/src/main/java/com/example/recipeapp/MainActivity.kt:232-235 | a text is shown as a direction step if and only if it is non-empty and is the trim of some piece |
| `RecipeCard.StepsConcat` | app/src/main/java/com/example/recipeapp/MainActivity.kt:232-235 | pieces are handled one at a time: the steps of two runs of pieces are those of the first followed by those of the second, so the order of the pieces is kept |
| `RecipeCard.DirectionLinesShape` | app/src/main/java/com/example/recipeapp/MainActivity.kt:232-235 | there are at most as many direction lines as periods plus one; each line is the bullet, a non-empty text with no period and no whitespace at either end, and a period |
| `RecipeCard.BlankDirectionsNoLines` | app/src/main/java/com/example/recipeapp/MainActivity.kt:232-235 | the directions show no direction line if and only if they are made only of periods and whitespace, the empty string included |
| `Text.SplitCovers` | app/src/main/java/com/example/recipeapp/MainActivity.kt:232 | every character of the string other than the delimiter lies in some piece of the split |
| `RecipeCard.StepsOfBlank` | app/src/main/java/com/example/recipeapp/MainActivity.kt:233 | pieces that all trim to nothing give no step |
| `RecipeCard.Render` | app/src/main/java/com/example/recipeapp/MainActivity.kt:204-236 | the description is limited to one line exactly when the card is collapsed and unlimited (`Int.MAX_VALUE`) when expanded; the toggle reads "Collapse" when expanded and "Expand" when collapsed; detail lines appear exactly when it is expanded, and then they are the "Ingredients:" heading, the ingredient lines, the "Directions:" heading and the direction lines, in that order, so there are three plus the number of commas plus the number of direction lines |
| `RecipeCard.ExpandedAfter` | app/src/main/java/com/example/recipeapp/MainActivity.kt:212 | the toggle state after a number of clicks, starting from the `false` of line 169; no `ensures` of its own, and `ExpandedAfterParity` describes it |
| `RecipeCard.ExpandedAfterParity` | app/src/main/java/com/example/recipeapp/MainActivity.kt:212 | starting collapsed and negating on each click, the card is expanded exactly after an odd number of clicks |
| `RecipeCard.TwoClicksRestore` | app/src/main/java/com/example/recipeapp/MainActivity.kt:212 | two clicks restore the state |
| `RecipeCard.CardState.constructor` | app/src/main/java/com/example/recipeapp/MainActivity.kt:169 | a card starts collapsed, after zero clicks |
| `RecipeCard.CardState.Click` | app/src/main/java/com/example/recipeapp/MainActivity.kt:212 | a click negates `expanded` and counts one more click, keeping the state equal to the parity of the clicks |

## Left out

- Firebase itself: `FirebaseApp.initializeApp`, `FirebaseDatabase.getInstance`, `addValueEventListener`, `push().key` and `setValue` are library calls. The collection is an in-memory map. The allocated key is a parameter. A write is a map update plus an entry in a write log.
- RecipeData.RecipeViewModel.constructor: takes the reference to the "recipes" collection as an argument instead of looking it up from the process-wide database instance. Registering the listener is the promise that later notifications reach `OnDataChange`.
- `child.getValue(Recipe::class.java)` is reflective decoding. Each child is given as its decode result, so the wire format is not modelled.
- RecipeData.RecipeViewModel.OnDataChange: a child that the Firebase mapper cannot convert to a `Recipe` makes `getValue` throw a `DatabaseException` out of `onDataChange`, leaving the published list as it was. The model does not capture this exception; it covers only recipes and null results.
- RecipeData.RecipeViewModel.OnDataChange: the notification's children are a parameter. They are not derived from `database.children`, so the model does not state that a recipe written by `AddRecipe` appears in a later notification.
- RecipeData.RecipeViewModel.AddRecipe: the uniqueness of push keys is Firebase's promise and is not modelled. A key already present is overwritten, as `setValue` would do.
- Asynchrony: listener callbacks and `StateFlow` publication are each one atomic step. The read-only `recipes` flow is the same value as `_recipes`, so it is the one field `recipes`.
- Completion and failure of writes are ignored by the source and are not modelled.
- Compose layout and visuals are not modelled: images, colours, animations, dimensions, string resources, the background alpha and navigation. The toggle's icon follows the same flag as its content description, which `Render` models.
- `imageResId` is an Android resource number. It is an opaque constant here.
- Text.IsWhitespace: Kotlin's `trim()` uses `Char.isWhitespace`. The model encodes that as a fixed table of code points: the Unicode space, line and paragraph separators, and the control characters Java counts as whitespace. A runtime whose Unicode tables differ could differ.
- RecipeCard.CardState: the flag is plain `remember` state of a `LazyColumn` item (lines 154-158 and 169), so a card that leaves composition, for example by scrolling off screen, comes back collapsed. The model keeps one `CardState` per card and does not capture this reset.
- `ui/theme/Type.kt` holds only font and typography constants.
- `ui/theme/AddRecipeScreen.kt` is form UI. Its one behavioural consequence is noted above.
- Listener teardown does not exist in the source.
