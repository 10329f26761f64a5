/**
 * The rules of a recipe card in the list screen: a one-bit `expanded` state
 * that each click on the toggle negates, and, while expanded, one bullet line
 * per comma-separated ingredient and one per non-blank period-separated
 * direction step. Layout, colours, images and animation are not modelled.
 */
module RecipeCard {
  import opened Text
  import opened RecipeData

  /** Kotlin's `Int.MAX_VALUE`, the description's line limit when expanded. */
  const IntMaxValue: int := 0x7fff_ffff

  /** The prefix of every ingredient and direction line. */
  const Bullet: string := "\U{2022} "

  // ---------------------------------------------------------------------------
  // Ingredients
  // ---------------------------------------------------------------------------

  /** One line per piece of `ingredients.split(",")`: the bullet, then the
      piece trimmed. Blank pieces are kept. */
  function IngredientLines(ingredients: string): (lines: seq<string>)
  {
    var pieces := Split(ingredients, ',');
    seq(|pieces|, i requires 0 <= i < |pieces| => Bullet + Trim(pieces[i]))
  }

  /** There is one ingredient line per comma plus one; line `i` shows the
      `i`-th piece trimmed, no line text holds a comma, and the pieces joined
      with commas give back the ingredients string. */
  lemma IngredientLinesFromPieces(ingredients: string)
    ensures |IngredientLines(ingredients)| == multiset(ingredients)[','] + 1
    ensures var pieces := Split(ingredients, ',');
      && |pieces| == |IngredientLines(ingredients)|
      && Join(pieces, ',') == ingredients
      && forall i :: 0 <= i < |pieces| ==>
           && IngredientLines(ingredients)[i] == Bullet + Trim(pieces[i])
           && ',' !in Trim(pieces[i])
  {
    var pieces := Split(ingredients, ',');
    SplitCount(ingredients, ',');
    JoinSplit(ingredients, ',');
    SplitPiecesFree(ingredients, ',');
    forall i | 0 <= i < |pieces| ensures ',' !in Trim(pieces[i]) {
      assert pieces[i] in pieces;
      TrimKeeps(pieces[i], ',');
    }
  }

  /** An empty ingredients string still shows one bullet, with no text. */
  lemma EmptyIngredientsOneBullet()
    ensures IngredientLines("") == [Bullet]
  {
    assert Split("", ',') == [""];
    assert Trim("") == "";
    assert Bullet + "" == Bullet;
  }

  // ---------------------------------------------------------------------------
  // Directions
  // ---------------------------------------------------------------------------

  /** Each piece trimmed, in order. */
  function TrimAll(pieces: seq<string>): (texts: seq<string>)
  {
    seq(|pieces|, i requires 0 <= i < |pieces| => Trim(pieces[i]))
  }

  /** The texts that are not empty, in order. */
  function NonEmpty(texts: seq<string>): (kept: seq<string>)
    ensures |kept| <= |texts|
  {
    if texts == [] then []
    else (if texts[0] == [] then [] else [texts[0]]) + NonEmpty(texts[1..])
  }

  /** The texts of the direction lines: each piece trimmed, blank ones left
      out, in order. */
  function Steps(pieces: seq<string>): (steps: seq<string>)
  {
    NonEmpty(TrimAll(pieces))
  }

  /** One line per non-blank piece of `directions.split(".")`: the bullet,
      the piece trimmed, and a period. */
  function DirectionLines(directions: string): (lines: seq<string>)
  {
    var steps := Steps(Split(directions, '.'));
    seq(|steps|, i requires 0 <= i < |steps| => Bullet + steps[i] + ".")
  }

  /** A text is kept exactly when it is one of the texts and is not empty. */
  lemma {:induction false} NonEmptyMembership(texts: seq<string>, t: string)
    ensures t in NonEmpty(texts) <==> t != [] && t in texts
  {
    if texts != [] {
      NonEmptyMembership(texts[1..], t);
      assert texts == [texts[0]] + texts[1..];
    }
  }

  /** Texts are filtered one at a time, so their order is kept. */
  lemma {:induction false} NonEmptyConcat(a: seq<string>, b: seq<string>)
    ensures NonEmpty(a + b) == NonEmpty(a) + NonEmpty(b)
  {
    if a == [] {
      assert a + b == b;
    } else {
      assert (a + b)[0] == a[0] && (a + b)[1..] == a[1..] + b;
      NonEmptyConcat(a[1..], b);
    }
  }

  /** A text is a step exactly when it is the non-empty trim of some piece. */
  lemma StepsMembership(pieces: seq<string>, t: string)
    ensures t in Steps(pieces) <==> t != [] && exists i :: 0 <= i < |pieces| && Trim(pieces[i]) == t
  {
    NonEmptyMembership(TrimAll(pieces), t);
    if t in TrimAll(pieces) {
      var i :| 0 <= i < |pieces| && TrimAll(pieces)[i] == t;
      assert Trim(pieces[i]) == t;
    }
    if exists i :: 0 <= i < |pieces| && Trim(pieces[i]) == t {
      var i :| 0 <= i < |pieces| && Trim(pieces[i]) == t;
      assert TrimAll(pieces)[i] == t;
    }
  }

  /** Steps are taken piece by piece, so the order of the pieces is kept. */
  lemma StepsConcat(a: seq<string>, b: seq<string>)
    ensures Steps(a + b) == Steps(a) + Steps(b)
  {
    assert TrimAll(a + b) == TrimAll(a) + TrimAll(b) by {
      forall i | 0 <= i < |a + b|
        ensures TrimAll(a + b)[i] == (TrimAll(a) + TrimAll(b))[i]
      {
        if i < |a| {
          assert (a + b)[i] == a[i];
        } else {
          assert (a + b)[i] == b[i - |a|];
        }
      }
    }
    NonEmptyConcat(TrimAll(a), TrimAll(b));
  }

  /** At most one direction line per period plus one; every line is the
      bullet, a non-empty step text that holds no period and has no whitespace
      at either end, and a period. */
  lemma DirectionLinesShape(directions: string)
    ensures |DirectionLines(directions)| <= multiset(directions)['.'] + 1
    ensures var steps := Steps(Split(directions, '.'));
      && |steps| == |DirectionLines(directions)|
      && forall i :: 0 <= i < |steps| ==>
           && DirectionLines(directions)[i] == Bullet + steps[i] + "."
           && steps[i] != []
           && '.' !in steps[i]
           && !IsWhitespace(steps[i][0]) && !IsWhitespace(steps[i][|steps[i]| - 1])
  {
    var pieces := Split(directions, '.');
    var steps := Steps(pieces);
    SplitCount(directions, '.');
    SplitPiecesFree(directions, '.');
    forall i | 0 <= i < |steps|
      ensures steps[i] != [] && '.' !in steps[i]
      ensures !IsWhitespace(steps[i][0]) && !IsWhitespace(steps[i][|steps[i]| - 1])
    {
      StepsMembership(pieces, steps[i]);
      var k :| 0 <= k < |pieces| && Trim(pieces[k]) == steps[i];
      assert pieces[k] in pieces;
      TrimKeeps(pieces[k], '.');
      var _ := TrimSlice(pieces[k]);
    }
  }

  /** The directions show no line exactly when they are empty or made only
      of periods and whitespace. */
  lemma BlankDirectionsNoLines(directions: string)
    ensures DirectionLines(directions) == [] <==>
      forall c :: c in directions ==> c == '.' || IsWhitespace(c)
  {
    var pieces := Split(directions, '.');
    if forall c :: c in directions ==> c == '.' || IsWhitespace(c) {
      SplitPiecesFree(directions, '.');
      JoinSplit(directions, '.');
      forall i | 0 <= i < |pieces| ensures Trim(pieces[i]) == [] {
        PieceOfBlank(pieces, pieces[i]);
        var _ := TrimSlice(pieces[i]);
      }
      StepsOfBlank(pieces);
    } else {
      var c :| c in directions && c != '.' && !IsWhitespace(c);
      SplitCovers(directions, '.', c);
      var p :| p in pieces && c in p;
      var k :| 0 <= k < |pieces| && pieces[k] == p;
      var j :| 0 <= j < |p| && p[j] == c;
      var _ := TrimSlice(p);
      assert !AllWhitespace(p);
      StepsMembership(pieces, Trim(p));
      assert Trim(p) in Steps(pieces);
    }
  }

  /** Every character of `s` other than the delimiter lies in some piece. */
  lemma {:induction false} SplitCovers(s: string, d: char, c: char)
    requires c in s && c != d
    ensures exists p :: p in Split(s, d) && c in p
  {
    var rest := Split(s[1..], d);
    if s[0] == c {
      assert c in [s[0]] + rest[0];
    } else {
      assert c in s[1..] by { assert s == [s[0]] + s[1..]; }
      SplitCovers(s[1..], d, c);
      var p :| p in rest && c in p;
      if s[0] != d && p == rest[0] {
        assert c in [s[0]] + rest[0];
      } else if s[0] != d {
        var k :| 0 <= k < |rest| && rest[k] == p;
        assert Split(s, d)[k] == p;
      } else {
        assert Split(s, d)[1..] == rest;
      }
    }
  }

  /** A piece of a string made of periods and whitespace is whitespace only. */
  lemma {:induction false} PieceOfBlank(pieces: seq<string>, p: string)
    requires |pieces| >= 1 && p in pieces
    requires forall q :: q in pieces ==> '.' !in q
    requires forall c :: c in Join(pieces, '.') ==> c == '.' || IsWhitespace(c)
    ensures AllWhitespace(p)
  {
    if |pieces| > 1 && p != pieces[0] {
      var tail := Join(pieces[1..], '.');
      assert Join(pieces, '.') == pieces[0] + ['.'] + tail;
      assert p in pieces[1..];
      assert forall q :: q in pieces[1..] ==> q in pieces;
      PieceOfBlank(pieces[1..], p);
    } else {
      assert |pieces| > 1 ==> Join(pieces, '.') == p + ['.'] + Join(pieces[1..], '.');
      forall i | 0 <= i < |p| ensures IsWhitespace(p[i]) {
        assert p[i] in p && p[i] in Join(pieces, '.');
      }
    }
  }

  /** Pieces that all trim to nothing give no step. */
  lemma StepsOfBlank(pieces: seq<string>)
    requires forall i :: 0 <= i < |pieces| ==> Trim(pieces[i]) == []
    ensures Steps(pieces) == []
  {
    if Steps(pieces) != [] {
      StepsMembership(pieces, Steps(pieces)[0]);
      assert false;
    }
  }

  // ---------------------------------------------------------------------------
  // The card
  // ---------------------------------------------------------------------------

  /** What a card shows beyond its header texts: the description's line limit,
      the toggle's content description, and the detail lines. */
  datatype CardView = CardView(descriptionMaxLines: int, toggleLabel: string, details: seq<string>)

  /** The card for `recipe` with the given `expanded` state. While collapsed
      the description is held to one line and no detail is shown; while
      expanded it is unlimited and the details are the ingredients heading,
      the ingredient lines, the directions heading and the direction lines. */
  function Render(recipe: Recipe, expanded: bool): (view: CardView)
    ensures view.descriptionMaxLines == 1 <==> !expanded
    ensures expanded ==> view.descriptionMaxLines == IntMaxValue
    ensures view.toggleLabel == (if expanded then "Collapse" else "Expand")
    ensures view.details == [] <==> !expanded
    ensures expanded ==> view.details == ["Ingredients:"] + IngredientLines(recipe.ingredients)
                                         + ["Directions:"] + DirectionLines(recipe.directions)
    ensures expanded ==> |view.details| == 3 + multiset(recipe.ingredients)[','] + |DirectionLines(recipe.directions)|
  {
    IngredientLinesFromPieces(recipe.ingredients);
    CardView(
      if expanded then IntMaxValue else 1,
      if expanded then "Collapse" else "Expand",
      if expanded then
        ["Ingredients:"] + IngredientLines(recipe.ingredients)
        + ["Directions:"] + DirectionLines(recipe.directions)
      else [])
  }

  /** Whether the card is expanded after `clicks` clicks on its toggle: it
      starts collapsed and each click negates the state. */
  function ExpandedAfter(clicks: nat): bool
  {
    if clicks == 0 then false else !ExpandedAfter(clicks - 1)
  }

  /** The card is expanded exactly after an odd number of clicks. */
  lemma {:induction false} ExpandedAfterParity(clicks: nat)
    ensures ExpandedAfter(clicks) <==> clicks % 2 == 1
  {
    if clicks > 0 {
      ExpandedAfterParity(clicks - 1);
    }
  }

  /** Two clicks restore the state. */
  lemma TwoClicksRestore(clicks: nat)
    ensures ExpandedAfter(clicks + 2) == ExpandedAfter(clicks)
  {
  }

  /** The card's `expanded` state, remembered across recompositions while the
      card stays in composition; a card that leaves the list's composition
      comes back collapsed, which is a fresh `CardState`. */
  class CardState {
    var expanded: bool
    /** The number of clicks so far. */
    ghost var clicks: nat

    ghost predicate Valid()
      reads this
    {
      expanded == ExpandedAfter(clicks)
    }

    /** `remember { mutableStateOf(false) }`. */
    constructor ()
      ensures Valid() && clicks == 0 && !expanded
    {
      expanded := false;
      clicks := 0;
    }

    /** The toggle's `onClick`: `expanded = !expanded`. */
    method Click()
      requires Valid()
      modifies this
      ensures Valid() && clicks == old(clicks) + 1
      ensures expanded == !old(expanded)
    {
      expanded := !expanded;
      clicks := clicks + 1;
    }
  }
}
