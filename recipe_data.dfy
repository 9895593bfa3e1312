/** The page's data: recipe records loaded once at start-up and the recipe
    cards of the listing. */
module RecipeData {

  datatype Option<+T> = None | Some(value: T)

  function GetOr<T>(o: Option<T>, default: T): T {
    match o
    case Some(v) => v
    case None => default
  }

  /** A recipe's nutrition object, as its keys in order with their amounts. */
  type Nutrition = seq<(string, string)>

  /** A recipe record. A field the JSON leaves out is `None`. */
  datatype Recipe = Recipe(
    title: Option<string>,
    description: Option<string>,
    ingredients: Option<seq<string>>,
    steps: Option<seq<string>>,
    nutrition: Option<Nutrition>,
    mealType: Option<string>)

  /** A recipe card: the text of its heading and paragraph (`None` when the
      element is missing), the recipe id written into its dataset (`None`
      until ids are assigned) and whether it is displayed. */
  datatype Card = Card(
    title: Option<string>,
    description: Option<string>,
    recipeId: Option<nat>,
    visible: bool)

  /** `recipesData[Number(card.dataset.recipeId)]`: the record a card points
      at, or `None` when its id is unset or past the end of the records. */
  function RecipeFor(c: Card, recipes: seq<Recipe>): Option<Recipe> {
    match c.recipeId
    case Some(i) => if i < |recipes| then Some(recipes[i]) else None
    case None => None
  }

  /** Every card's id indexes a record. */
  predicate IdsIndexRecipes(cards: seq<Card>, recipes: seq<Recipe>) {
    forall i :: 0 <= i < |cards| ==> RecipeFor(cards[i], recipes).Some?
  }

  /** Two card lists that differ at most in which cards are displayed. */
  predicate SameCards(a: seq<Card>, b: seq<Card>) {
    |a| == |b| && forall i :: 0 <= i < |a| ==> a[i].(visible := false) == b[i].(visible := false)
  }

  /** The number of displayed cards. */
  function CountVisible(cards: seq<Card>): (n: nat)
    ensures n <= |cards|
  {
    if cards == [] then 0
    else CountVisible(cards[..|cards| - 1]) + (if cards[|cards| - 1].visible then 1 else 0)
  }

  /** When every card is displayed the count is the number of cards, and when
      none is, it is zero. */
  lemma {:induction false} CountVisibleAll(cards: seq<Card>)
    ensures (forall i :: 0 <= i < |cards| ==> cards[i].visible) ==> CountVisible(cards) == |cards|
    ensures (forall i :: 0 <= i < |cards| ==> !cards[i].visible) ==> CountVisible(cards) == 0
  {
    if cards != [] {
      CountVisibleAll(cards[..|cards| - 1]);
    }
  }
}
