/** The meal-type filter's rule: in card order, display the first two cards
    whose record has the requested meal type and hide every other card. */
module MealFilter {
  import opened RecipeData

  /** The cap on displayed cards. */
  const Cap: nat := 2

  function Min(a: nat, b: nat): nat {
    if a <= b then a else b
  }

  /** `recipe.mealType === mealType` for the card's record; a record without
      a meal type never matches. */
  predicate IsMealMatch(c: Card, recipes: seq<Recipe>, mealType: string) {
    var r := RecipeFor(c, recipes);
    r.Some? && r.value.mealType == Some(mealType)
  }

  /** The number of cards whose record has the meal type. */
  function MatchCount(cards: seq<Card>, recipes: seq<Recipe>, mealType: string): (n: nat)
    ensures n <= |cards|
  {
    if cards == [] then 0
    else
      MatchCount(cards[..|cards| - 1], recipes, mealType)
        + (if IsMealMatch(cards[|cards| - 1], recipes, mealType) then 1 else 0)
  }

  /** The cards after the filter: card i is displayed when it matches and
      fewer than two matching cards come before it. */
  function MealFilterResult(cards: seq<Card>, recipes: seq<Recipe>, mealType: string): (r: seq<Card>)
    ensures SameCards(cards, r)
  {
    seq(|cards|, i requires 0 <= i < |cards| =>
      cards[i].(visible := IsMealMatch(cards[i], recipes, mealType) && MatchCount(cards[..i], recipes, mealType) < Cap))
  }

  lemma MealFilterPrefix(cards: seq<Card>, recipes: seq<Recipe>, mealType: string, n: nat)
    requires n <= |cards|
    ensures MealFilterResult(cards, recipes, mealType)[..n] == MealFilterResult(cards[..n], recipes, mealType)
  {
    var r, p := MealFilterResult(cards, recipes, mealType), MealFilterResult(cards[..n], recipes, mealType);
    forall i | 0 <= i < n
      ensures r[i] == p[i]
    {
      assert cards[..n][..i] == cards[..i];
    }
  }

  /** The filter displays exactly min(2, k) cards, where k cards match: the
      cap of two is reached whenever there are enough matches, and no
      match means no card is displayed. */
  lemma {:induction false} MealFilterCount(cards: seq<Card>, recipes: seq<Recipe>, mealType: string)
    ensures CountVisible(MealFilterResult(cards, recipes, mealType)) == Min(Cap, MatchCount(cards, recipes, mealType))
  {
    if cards != [] {
      var n := |cards| - 1;
      var r := MealFilterResult(cards, recipes, mealType);
      MealFilterPrefix(cards, recipes, mealType, n);
      MealFilterCount(cards[..n], recipes, mealType);
      assert r[..|r| - 1] == MealFilterResult(cards[..n], recipes, mealType);
    }
  }

  lemma {:induction false} MatchCountMonotone(cards: seq<Card>, recipes: seq<Recipe>, mealType: string, j: nat, i: nat)
    requires j <= i <= |cards|
    ensures MatchCount(cards[..j], recipes, mealType) <= MatchCount(cards[..i], recipes, mealType)
  {
    if j < i {
      MatchCountMonotone(cards, recipes, mealType, j, i - 1);
      assert cards[..i][..i - 1] == cards[..i - 1];
    }
  }

  /** The displayed cards are the earliest matches: a displayed card has no
      hidden matching card before it. */
  lemma MealFilterKeepsEarliest(cards: seq<Card>, recipes: seq<Recipe>, mealType: string, j: nat, i: nat)
    requires j < i < |cards|
    requires MealFilterResult(cards, recipes, mealType)[i].visible
    requires IsMealMatch(cards[j], recipes, mealType)
    ensures MealFilterResult(cards, recipes, mealType)[j].visible
  {
    assert cards[..j + 1][..j] == cards[..j];
    MatchCountMonotone(cards, recipes, mealType, j + 1, i);
  }

  /** Every displayed card's record has the requested meal type, and at most
      two cards are displayed. */
  lemma MealFilterShowsOnlyMatches(cards: seq<Card>, recipes: seq<Recipe>, mealType: string)
    ensures forall i :: 0 <= i < |cards| && MealFilterResult(cards, recipes, mealType)[i].visible ==>
      RecipeFor(cards[i], recipes).Some? && RecipeFor(cards[i], recipes).value.mealType == Some(mealType)
    ensures CountVisible(MealFilterResult(cards, recipes, mealType)) <= Cap
  {
    MealFilterCount(cards, recipes, mealType);
  }

  /** Which cards were displayed before has no effect on the outcome. */
  lemma MealFilterIgnoresVisibility(a: seq<Card>, b: seq<Card>, recipes: seq<Recipe>, mealType: string)
    requires SameCards(a, b)
    ensures MealFilterResult(a, recipes, mealType) == MealFilterResult(b, recipes, mealType)
  {
    var ra, rb := MealFilterResult(a, recipes, mealType), MealFilterResult(b, recipes, mealType);
    forall i | 0 <= i < |a|
      ensures ra[i] == rb[i]
    {
      MatchCountIgnoresVisibility(a[..i], b[..i], recipes, mealType);
      assert a[i].recipeId == b[i].recipeId;
    }
  }

  lemma {:induction false} MatchCountIgnoresVisibility(a: seq<Card>, b: seq<Card>, recipes: seq<Recipe>, mealType: string)
    requires SameCards(a, b)
    ensures MatchCount(a, recipes, mealType) == MatchCount(b, recipes, mealType)
  {
    if a != [] {
      var n := |a| - 1;
      MatchCountIgnoresVisibility(a[..n], b[..n], recipes, mealType);
      assert a[n].recipeId == b[n].recipeId;
    }
  }

  /** When no record carries a meal type (as with records built from the
      cards themselves), the filter hides every card. */
  lemma {:induction false} NoMealTypesHidesAll(cards: seq<Card>, recipes: seq<Recipe>, mealType: string)
    requires forall j :: 0 <= j < |recipes| ==> recipes[j].mealType.None?
    ensures MatchCount(cards, recipes, mealType) == 0
    ensures CountVisible(MealFilterResult(cards, recipes, mealType)) == 0
  {
    if cards != [] {
      NoMealTypesHidesAll(cards[..|cards| - 1], recipes, mealType);
    }
    MealFilterCount(cards, recipes, mealType);
  }
}
