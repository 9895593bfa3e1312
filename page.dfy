/** The recipe page: its cards, the loaded records, the navbar, the search
    container and the detail modal, with the event handlers that change
    them. */
module PageModel {
  import opened Text
  import opened RecipeData
  import opened Search
  import opened MealFilter
  import opened Scroll
  import opened Loader
  import opened Modal

  class Page {
    /** The `.recipe-template` cards, in document order. */
    const cards: array<Card>
    /** The search finds a cards container: a `.recipe-container` element
        exists, or the first card's parent serves as one. */
    const hasContainer: bool
    /** `recipesData`: the records, indexed by card id. */
    var recipes: seq<Recipe>
    /** The navbar carries `navbar-hide`. */
    var navbarHidden: bool
    var lastScrollTop: int
    /** The cards container carries `search-active`. */
    var searchActive: bool
    /** The modal's `display` is "block". */
    var modalVisible: bool
    var modalTitle: string
    var modalDescription: string
    var modalIngredients: seq<string>
    var modalSteps: seq<string>
    var modalNutrition: seq<(string, string)>

    /** The class invariant: the stored scroll offset is never negative. Only
        the scroll listener writes that offset, so every other method keeps
        the invariant by its frame. */
    ghost predicate Valid()
      reads this`lastScrollTop
    {
      lastScrollTop >= 0
    }

    function ModalView(): ModalContent
      reads this
    {
      ModalContent(modalTitle, modalDescription, modalIngredients, modalSteps, modalNutrition)
    }

    /** The record a card resolves to; `None` stands for a `.recipe-btn`
        that is not inside a card (`closest` gives null), and also results
        from an unset or out-of-range id. */
    function Lookup(card: Option<nat>): Option<Recipe>
      reads this, cards
      requires card.Some? ==> card.value < cards.Length
    {
      if card.Some? then RecipeFor(cards[card.value], recipes) else None
    }

    /** The page as loaded: no records yet, the navbar shown, the stored
        offset 0, the modal closed and empty. */
    constructor (initialCards: seq<Card>, recipeContainerPresent: bool)
      ensures Valid() && fresh(cards)
      ensures cards[..] == initialCards
      ensures hasContainer == (recipeContainerPresent || |initialCards| > 0)
      ensures recipes == [] && !navbarHidden && lastScrollTop == 0 && !searchActive
      ensures !modalVisible && ModalView() == ModalContent("", "", [], [], [])
    {
      cards := new Card[|initialCards|](i requires 0 <= i < |initialCards| => initialCards[i]);
      hasContainer := recipeContainerPresent || |initialCards| > 0;
      recipes := [];
      navbarHidden, lastScrollTop, searchActive := false, 0, false;
      modalVisible := false;
      modalTitle, modalDescription := "", "";
      modalIngredients, modalSteps, modalNutrition := [], [], [];
    }

    /** The scroll listener: hide the navbar when the offset grew past the
        stored one, show it otherwise, then store the offset clamped at 0. */
    method OnScroll(pageYOffset: int, documentScrollTop: int)
      requires Valid()
      modifies this`navbarHidden, this`lastScrollTop
      ensures Valid()
      ensures NavState(navbarHidden, lastScrollTop) ==
        ScrollStep(old(lastScrollTop), ScrollOffset(pageYOffset, documentScrollTop))
    {
      var scrollTop := if pageYOffset != 0 then pageYOffset else documentScrollTop;
      if scrollTop > lastScrollTop {
        navbarHidden := true;
      } else {
        navbarHidden := false;
      }
      lastScrollTop := if scrollTop <= 0 then 0 else scrollTop;
    }

    /** The settled search: every card is displayed or hidden by the match
        rule, `matches` counts the displayed cards, and the container gets
        `search-active` exactly when the filter is non-empty and something
        matched. */
    method PerformSearch(query: string) returns (matches: nat)
      modifies cards, this`searchActive
      ensures cards[..] == SearchResult(old(cards[..]), Filter(query))
      ensures matches == CountVisible(cards[..])
      ensures searchActive == if hasContainer then SearchActive(Filter(query), matches) else old(searchActive)
    {
      var filter := Trim(Lower(query));
      ghost var orig := cards[..];
      matches := 0;
      var i := 0;
      while i < cards.Length
        modifies cards
        invariant 0 <= i <= cards.Length
        invariant forall k :: 0 <= k < i ==> cards[k] == orig[k].(visible := CardMatches(filter, orig[k]))
        invariant forall k :: i <= k < cards.Length ==> cards[k] == orig[k]
        invariant matches == CountVisible(cards[..i])
      {
        var card := cards[i];
        var title := Lower(GetOr(card.title, ""));
        var desc := Lower(GetOr(card.description, ""));
        var shown: bool;
        if filter == [] {
          shown := true;
          matches := matches + 1;
        } else if Includes(title, filter) || Includes(desc, filter) {
          shown := true;
          matches := matches + 1;
        } else {
          shown := false;
        }
        assert shown == CardMatches(filter, orig[i]);
        cards[i] := card.(visible := shown);
        assert cards[..i + 1][..i] == cards[..i];
        i := i + 1;
      }
      assert cards[..i] == cards[..];
      assert cards[..] == SearchResult(orig, filter);
      if hasContainer {
        if filter != [] && matches > 0 {
          searchActive := true;
        } else {
          searchActive := false;
        }
      }
    }

    /** Card i gets recipe id i; nothing else about the cards changes. */
    method SetUpRecipeIds()
      modifies cards
      ensures forall i :: 0 <= i < cards.Length ==> cards[i] == old(cards[i]).(recipeId := Some(i))
    {
      var i := 0;
      while i < cards.Length
        invariant 0 <= i <= cards.Length
        invariant forall k :: 0 <= k < i ==> cards[k] == old(cards[k]).(recipeId := Some(k))
        invariant forall k :: i <= k < cards.Length ==> cards[k] == old(cards[k])
      {
        cards[i] := cards[i].(recipeId := Some(i));
        i := i + 1;
      }
    }

    /** The loader: the fetched records when served over http(s) and the
        fetch succeeds, else the inline records when the inline text is
        non-blank and parses, else one fallback record per card. */
    method LoadRecipes(protocol: string, fetch: FetchOutcome, inline: Option<InlineScript>) returns (data: seq<Recipe>)
      ensures data == LoadResult(protocol, fetch, inline, cards[..])
    {
      if IsHttp(protocol) {
        if fetch.FetchOk? {
          return fetch.data;
        }
      }
      if inline.Some? && Trim(inline.value.text) != [] {
        if inline.value.parse.Parsed? {
          return inline.value.parse.data;
        }
      }
      assert SelectSource(protocol, fetch, inline) == DomFallback;
      data := BuildFallbackData();
    }

    /** The last resort of the loader: one record per card, in card order,
        built from the card's trimmed texts with the default strings and
        placeholder lists. */
    method BuildFallbackData() returns (fallbackData: seq<Recipe>)
      ensures fallbackData == FallbackData(cards[..])
    {
      fallbackData := [];
      var i := 0;
      while i < cards.Length
        invariant 0 <= i <= cards.Length
        invariant |fallbackData| == i
        invariant forall k :: 0 <= k < i ==> fallbackData[k] == FallbackRecord(cards[k])
      {
        var card := cards[i];
        var title := TextOr(card.title, DefaultTitle);
        var desc := TextOr(card.description, DefaultDescription);
        fallbackData := fallbackData + [Recipe(
          Some(title),
          Some(desc),
          Some([PlaceholderIngredient]),
          Some([PlaceholderStep]),
          Some([PlaceholderNutrition]),
          None)];
        i := i + 1;
      }
      assert fallbackData == FallbackData(cards[..]);
    }

    /** Start-up: assign the card ids, then load the records. When the
        records come from the cards themselves, every card id indexes a
        record and no record has a meal type. */
    method InitApp(protocol: string, fetch: FetchOutcome, inline: Option<InlineScript>)
      modifies cards, this`recipes
      ensures forall i :: 0 <= i < cards.Length ==> cards[i] == old(cards[i]).(recipeId := Some(i))
      ensures recipes == LoadResult(protocol, fetch, inline, cards[..])
      ensures SelectSource(protocol, fetch, inline) == DomFallback ==>
        IdsIndexRecipes(cards[..], recipes) &&
        forall j :: 0 <= j < |recipes| ==> recipes[j].mealType.None?
    {
      SetUpRecipeIds();
      recipes := LoadRecipes(protocol, fetch, inline);
      if SelectSource(protocol, fetch, inline) == DomFallback {
        FallbackCoversCards(protocol, fetch, inline, cards[..]);
        assert forall i :: 0 <= i < cards.Length ==> cards[i].recipeId == Some(i);
      }
    }

    /** Opening a card: a card without a record leaves everything as it was;
        otherwise the modal shows the record, with the lists rebuilt from
        scratch, and becomes visible. */
    method OpenRecipeFromCard(card: Option<nat>)
      requires card.Some? ==> card.value < cards.Length
      modifies this`modalVisible, this`modalTitle, this`modalDescription,
        this`modalIngredients, this`modalSteps, this`modalNutrition
      ensures Lookup(card).None? ==> unchanged(this)
      ensures Lookup(card).Some? ==> modalVisible && ModalView() == Render(Lookup(card).value)
    {
      var recipe := if card.Some? then RecipeFor(cards[card.value], recipes) else None;
      if recipe.None? {
        return;
      }
      var r := recipe.value;
      modalTitle := GetOr(r.title, "");
      modalDescription := GetOr(r.description, "");

      modalIngredients := [];
      var ingredients := GetOr(r.ingredients, []);
      var i := 0;
      while i < |ingredients|
        modifies this`modalIngredients
        invariant 0 <= i <= |ingredients|
        invariant modalIngredients == ingredients[..i]
      {
        modalIngredients := modalIngredients + [ingredients[i]];
        i := i + 1;
      }
      assert ingredients[..i] == ingredients;

      modalSteps := [];
      var steps := GetOr(r.steps, []);
      i := 0;
      while i < |steps|
        modifies this`modalSteps
        invariant 0 <= i <= |steps|
        invariant modalSteps == steps[..i]
      {
        modalSteps := modalSteps + [steps[i]];
        i := i + 1;
      }
      assert steps[..i] == steps;

      modalNutrition := [NutritionHeader];
      var nutrition := GetOr(r.nutrition, []);
      i := 0;
      while i < |nutrition|
        modifies this`modalNutrition
        invariant 0 <= i <= |nutrition|
        invariant modalNutrition == [NutritionHeader] + nutrition[..i]
      {
        modalNutrition := modalNutrition + [nutrition[i]];
        i := i + 1;
      }
      assert nutrition[..i] == nutrition;

      modalVisible := true;
    }

    /** The close button hides the modal. */
    method OnCloseClick()
      modifies this`modalVisible
      ensures !modalVisible
    {
      modalVisible := false;
    }

    /** A click whose target is the modal backdrop itself hides the modal;
        any other click leaves it as it was. */
    method OnWindowClick(targetIsModal: bool)
      modifies this`modalVisible
      ensures modalVisible == (old(modalVisible) && !targetIsModal)
    {
      if targetIsModal {
        modalVisible := false;
      }
    }

    /** The Escape key hides the modal; any other key leaves it as it was. */
    method OnKeyDown(key: string)
      modifies this`modalVisible
      ensures modalVisible == (old(modalVisible) && key != "Escape")
    {
      if key == "Escape" {
        modalVisible := false;
      }
    }

    /** The meal-type buttons: display every card, then in card order
        display the first two cards whose record has the meal type and hide
        the rest. Every card's id must index a record, since the record is
        read without a check. */
    method FilterByMealType(mealType: string)
      requires IdsIndexRecipes(cards[..], recipes)
      modifies cards
      ensures cards[..] == MealFilterResult(old(cards[..]), recipes, mealType)
      ensures CountVisible(cards[..]) == Min(Cap, MatchCount(old(cards[..]), recipes, mealType))
    {
      ghost var orig := cards[..];
      var i := 0;
      while i < cards.Length
        invariant 0 <= i <= cards.Length
        invariant forall k :: 0 <= k < i ==> cards[k] == orig[k].(visible := true)
        invariant forall k :: i <= k < cards.Length ==> cards[k] == orig[k]
      {
        cards[i] := cards[i].(visible := true);
        i := i + 1;
      }

      ghost var result := MealFilterResult(orig, recipes, mealType);
      var matchingRecipes := 0;
      i := 0;
      while i < cards.Length
        invariant 0 <= i <= cards.Length
        invariant matchingRecipes == Min(Cap, MatchCount(orig[..i], recipes, mealType))
        invariant forall k :: 0 <= k < i ==> cards[k] == result[k]
        invariant forall k :: i <= k < cards.Length ==> cards[k] == orig[k].(visible := true)
      {
        assert RecipeFor(orig[i], recipes).Some?;
        assert cards[i].recipeId == orig[i].recipeId;
        ghost var isMatch := IsMealMatch(orig[i], recipes, mealType);
        assert orig[..i + 1][..i] == orig[..i];
        assert MatchCount(orig[..i + 1], recipes, mealType) ==
          MatchCount(orig[..i], recipes, mealType) + (if isMatch then 1 else 0);
        assert result[i] == orig[i].(visible := isMatch && MatchCount(orig[..i], recipes, mealType) < Cap);
        var recipe := recipes[cards[i].recipeId.value];
        var shown: bool;
        if recipe.mealType == Some(mealType) && matchingRecipes < 2 {
          shown := true;
          matchingRecipes := matchingRecipes + 1;
        } else {
          shown := false;
        }
        assert cards[i].(visible := shown) == result[i];
        cards[i] := cards[i].(visible := shown);
        i := i + 1;
      }
      assert cards[..] == result;
      MealFilterCount(orig, recipes, mealType);
    }
  }

  /** The three ways of closing the modal. */
  datatype CloseTrigger = CloseButton | Backdrop | EscapeKey

  /** Any of the three triggers hides the modal; on a modal that is already
      hidden, closing changes nothing at all. */
  method Close(p: Page, trigger: CloseTrigger)
    modifies p`modalVisible
    ensures !p.modalVisible
    ensures !old(p.modalVisible) ==> unchanged(p)
  {
    match trigger
    case CloseButton => p.OnCloseClick();
    case Backdrop => p.OnWindowClick(true);
    case EscapeKey => p.OnKeyDown("Escape");
  }

  /** Opening a card and then closing the modal by any trigger leaves it
      hidden, showing the card's record when there is one and what it showed
      before when there is none. */
  method OpenThenClose(p: Page, card: nat, trigger: CloseTrigger)
    requires card < p.cards.Length
    modifies p`modalVisible, p`modalTitle, p`modalDescription, p`modalIngredients, p`modalSteps, p`modalNutrition
    ensures !p.modalVisible
    ensures p.Lookup(Some(card)).Some? ==> p.ModalView() == Render(p.Lookup(Some(card)).value)
    ensures p.Lookup(Some(card)).None? ==> p.ModalView() == old(p.ModalView())
  {
    p.OpenRecipeFromCard(Some(card));
    Close(p, trigger);
  }
}
