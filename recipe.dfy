/**
 * The recipe entity and the view model that mirrors the remote "recipes"
 * collection into a published list and writes new recipes back.
 *
 * The Firebase reference is an in-memory store (`DatabaseReference`): a map
 * from child key to recipe plus the log of the writes issued to it. A value
 * notification is the sequence of what `getValue(Recipe::class.java)` returns
 * for each of its children: `Some(recipe)`, or `None` where it returns null
 * (a child holding no data). The key that `push()` would allocate is handed
 * to `AddRecipe` as an `Option<string>`.
 */
module RecipeData {

  datatype Option<+T> = None | Some(value: T)

  /** `R.drawable.ic_default_recipe`: an Android resource number assigned at
      build time. The model fixes an arbitrary value; nothing depends on it. */
  const DefaultImageResId: int := 0x7f08_0000

  /** The name of the remote collection the view model listens to. */
  const RecipesPath: string := "recipes"

  /** A recipe as the app holds it and as it is stored remotely. The
      ingredients are one comma-separated string and the directions one
      period-separated string. */
  datatype Recipe = Recipe(
    id: string,
    name: string,
    description: string,
    ingredients: string,
    directions: string,
    imageResId: int)

  /** `Recipe()` with every argument defaulted: no id yet, empty text fields,
      the placeholder image. */
  function DefaultRecipe(): (r: Recipe)
    ensures r.id == "" && r.name == "" && r.description == ""
    ensures r.ingredients == "" && r.directions == ""
    ensures r.imageResId == DefaultImageResId
  {
    Recipe("", "", "", "", "", DefaultImageResId)
  }

  /** The error value a cancelled listener receives. */
  datatype DatabaseError = DatabaseError(code: int, message: string)

  // ---------------------------------------------------------------------------
  // The published list as a function of a notification
  // ---------------------------------------------------------------------------

  /** The non-null decode results, in the order of the children.
      Recursion is on the last child, the order in which the listener's loop
      adds them. */
  function Decoded(children: seq<Option<Recipe>>): (recipes: seq<Recipe>)
    ensures |recipes| == |children| - multiset(children)[None]
  {
    if children == [] then []
    else
      var init, last := children[..|children| - 1], children[|children| - 1];
      assert children == init + [last];
      match last
      case Some(r) => Decoded(init) + [r]
      case None => Decoded(init)
  }

  /** Decoding is done child by child: the recipes of two runs of children are
      those of the first run followed by those of the second, so the relative
      order of the children is kept. */
  lemma {:induction false} DecodedConcat(a: seq<Option<Recipe>>, b: seq<Option<Recipe>>)
    ensures Decoded(a + b) == Decoded(a) + Decoded(b)
  {
    if b == [] {
      assert a + b == a;
    } else {
      var init := b[..|b| - 1];
      assert (a + b)[..|a + b| - 1] == a + init;
      assert (a + b)[|a + b| - 1] == b[|b| - 1];
      DecodedConcat(a, init);
    }
  }

  /** A single child contributes its recipe when `getValue` gives one and
      nothing when it gives null. */
  lemma DecodedSingle(child: Option<Recipe>)
    ensures Decoded([child]) == if child.Some? then [child.value] else []
  {
    assert [child][..0] == [];
  }

  /** When no decode result is null, the list holds each child's recipe at the
      child's own position. */
  lemma {:induction false} DecodedAllSome(children: seq<Option<Recipe>>)
    requires forall i :: 0 <= i < |children| ==> children[i].Some?
    ensures |Decoded(children)| == |children|
    ensures forall i :: 0 <= i < |children| ==> Decoded(children)[i] == children[i].value
  {
    if children != [] {
      var init := children[..|children| - 1];
      DecodedAllSome(init);
      assert Decoded(children) == Decoded(init) + [children[|children| - 1].value];
    }
  }

  /** The list holds each recipe as many times as children decoded to it:
      every non-null result and nothing else. */
  lemma {:induction false} DecodedCounts(children: seq<Option<Recipe>>, r: Recipe)
    ensures multiset(Decoded(children))[r] == multiset(children)[Some(r)]
  {
    if children != [] {
      var init, last := children[..|children| - 1], children[|children| - 1];
      assert children == init + [last];
      DecodedCounts(init, r);
    }
  }

  /** A recipe is in the list exactly when some child decoded to it. */
  lemma DecodedMembership(children: seq<Option<Recipe>>, r: Recipe)
    ensures r in Decoded(children) <==> Some(r) in children
  {
    DecodedCounts(children, r);
  }

  // ---------------------------------------------------------------------------
  // The remote collection
  // ---------------------------------------------------------------------------

  /** The remote collection at `path`: its children by key, and every write
      issued to it, in order. */
  class DatabaseReference {
    const path: string
    var children: map<string, Recipe>
    ghost var writes: seq<(string, Recipe)>

    constructor (path: string, children: map<string, Recipe>)
      ensures this.path == path && this.children == children && writes == []
    {
      this.path := path;
      this.children := children;
      writes := [];
    }

    /** `child(key).setValue(value)`. */
    method SetChild(key: string, value: Recipe)
      modifies this
      ensures children == old(children)[key := value]
      ensures writes == old(writes) + [(key, value)]
    {
      children := children[key := value];
      writes := writes + [(key, value)];
    }
  }

  // ---------------------------------------------------------------------------
  // The view model
  // ---------------------------------------------------------------------------

  class RecipeViewModel {
    const database: DatabaseReference
    /** The value of `_recipes`, which `recipes` republishes unchanged. */
    var recipes: seq<Recipe>

    /** Takes the reference to the "recipes" collection and registers the
        listener; nothing has been published yet, so the list is empty. */
    constructor (database: DatabaseReference)
      requires database.path == RecipesPath
      ensures this.database == database && recipes == []
    {
      this.database := database;
      recipes := [];
    }

    /** `onDataChange`: rebuilds the list from the notification's children,
        keeping the non-null decode results, and replaces the published list with it.
        The new list depends on the notification alone. */
    method OnDataChange(snapshot: seq<Option<Recipe>>)
      modifies this
      ensures recipes == Decoded(snapshot)
    {
      var recipeList: seq<Recipe> := [];
      for i := 0 to |snapshot|
        invariant recipeList == Decoded(snapshot[..i])
      {
        ghost var done := snapshot[..i + 1];
        assert done[..i] == snapshot[..i] && done[i] == snapshot[i];
        match snapshot[i]
        case Some(recipe) => recipeList := recipeList + [recipe];
        case None =>
      }
      assert snapshot[..|snapshot|] == snapshot;
      recipes := recipeList;
    }

    /** `onCancelled`: the error is ignored and the list stays as it was. */
    method OnCancelled(error: DatabaseError)
      ensures recipes == old(recipes)
    {
    }

    /** `addRecipe`: without a fresh key nothing is written; with key `k`
        exactly one write is issued, at `k`, of a recipe whose id is `k`, whose
        text fields are the arguments and whose other fields keep the defaults
        of `Recipe()`. The published list is not touched by this call. */
    method AddRecipe(pushKey: Option<string>, name: string, description: string,
                     ingredients: string, directions: string)
      modifies database
      ensures pushKey.None? ==>
        database.children == old(database.children) && database.writes == old(database.writes)
      ensures pushKey.Some? ==>
        var recipe := DefaultRecipe().(id := pushKey.value, name := name, description := description,
                                       ingredients := ingredients, directions := directions);
        && database.children == old(database.children)[pushKey.value := recipe]
        && database.writes == old(database.writes) + [(pushKey.value, recipe)]
      ensures recipes == old(recipes)
    {
      if pushKey.None? {
        return;
      }
      var newId := pushKey.value;
      var recipe := DefaultRecipe().(
        id := newId,
        name := name,
        description := description,
        ingredients := ingredients,
        directions := directions);
      database.SetChild(newId, recipe);
    }
  }
}
