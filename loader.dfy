/** Where the recipe records come from: the network, the inline JSON
    element, or records built from the cards themselves, in that order. */
module Loader {
  import opened Text
  import opened RecipeData

  /** The outcome of fetching `recipes.json` and decoding its body: any
      network error, non-success status or decoding error is a failure. */
  datatype FetchOutcome = FetchOk(data: seq<Recipe>) | FetchFailed

  /** The outcome of `JSON.parse` on a text. */
  datatype ParseOutcome = Parsed(data: seq<Recipe>) | ParseFailed

  /** The inline `recipesDataJson` element: its text and what parsing that
      text gives. */
  datatype InlineScript = InlineScript(text: string, parse: ParseOutcome)

  datatype Source = Network | InlineJson | DomFallback

  /** Only pages served over http or https attempt the fetch. */
  predicate IsHttp(protocol: string) {
    protocol == "http:" || protocol == "https:"
  }

  /** The inline element exists, its trimmed text is not blank, and it
      parses. */
  predicate InlineUsable(inline: Option<InlineScript>) {
    inline.Some? && Trim(inline.value.text) != [] && inline.value.parse.Parsed?
  }

  /** The first source that succeeds, in priority order. */
  function SelectSource(protocol: string, fetch: FetchOutcome, inline: Option<InlineScript>): Source {
    if IsHttp(protocol) && fetch.FetchOk? then Network
    else if InlineUsable(inline) then InlineJson
    else DomFallback
  }

  const DefaultTitle: string := "Recipe"
  const DefaultDescription: string := "Details coming soon."
  const PlaceholderIngredient: string := "Ingredient details not available"
  const PlaceholderStep: string := "Step-by-step instructions not available"
  const PlaceholderNutrition: (string, string) := ("Nutritional Info", "Not available")

  /** `element?.textContent?.trim() || default`: the trimmed text, or the
      default when the element is missing or its text is blank. */
  function TextOr(text: Option<string>, default: string): (r: string)
    requires default != []
    ensures r != []
    ensures text.Some? && Trim(text.value) != [] ==> r == Trim(text.value)
    ensures text.None? || Trim(text.value) == [] ==> r == default
  {
    match text
    case Some(t) => if Trim(t) != [] then Trim(t) else default
    case None => default
  }

  /** The record built for a card when no data source is available. */
  function FallbackRecord(c: Card): Recipe {
    Recipe(
      Some(TextOr(c.title, DefaultTitle)),
      Some(TextOr(c.description, DefaultDescription)),
      Some([PlaceholderIngredient]),
      Some([PlaceholderStep]),
      Some([PlaceholderNutrition]),
      None)
  }

  /** One fallback record per card, in card order. */
  function FallbackData(cards: seq<Card>): seq<Recipe> {
    seq(|cards|, i requires 0 <= i < |cards| => FallbackRecord(cards[i]))
  }

  /** The records the loader resolves to. */
  function LoadResult(protocol: string, fetch: FetchOutcome, inline: Option<InlineScript>, cards: seq<Card>): seq<Recipe> {
    match SelectSource(protocol, fetch, inline)
    case Network => fetch.data
    case InlineJson => inline.value.parse.data
    case DomFallback => FallbackData(cards)
  }

  /** A fallback record always has a non-empty title and description, one
      placeholder ingredient, one placeholder step, one nutrition entry and
      no meal type. */
  lemma FallbackRecordShape(c: Card)
    ensures var r := FallbackRecord(c);
      && r.title.Some? && r.title.value != []
      && r.description.Some? && r.description.value != []
      && r.ingredients == Some([PlaceholderIngredient])
      && r.steps == Some([PlaceholderStep])
      && r.nutrition == Some([PlaceholderNutrition])
      && r.mealType.None?
  {
  }

  /** Off http(s) the fetch is never attempted, so its outcome is
      irrelevant. */
  lemma FetchOnlyOverHttp(protocol: string, f1: FetchOutcome, f2: FetchOutcome, inline: Option<InlineScript>, cards: seq<Card>)
    requires !IsHttp(protocol)
    ensures LoadResult(protocol, f1, inline, cards) == LoadResult(protocol, f2, inline, cards)
  {
  }

  /** A successful fetch wins over every other source. */
  lemma NetworkWins(protocol: string, data: seq<Recipe>, inline: Option<InlineScript>, cards: seq<Card>)
    requires IsHttp(protocol)
    ensures LoadResult(protocol, FetchOk(data), inline, cards) == data
  {
  }

  /** The inline records are used only when the fetch was not attempted or
      failed and the element's trimmed text is non-blank and parses; blank
      text falls through without being parsed. */
  lemma InlineNeedsNonBlankParsedText(protocol: string, fetch: FetchOutcome, inline: Option<InlineScript>)
    ensures SelectSource(protocol, fetch, inline) == InlineJson <==>
      !(IsHttp(protocol) && fetch.FetchOk?) &&
      inline.Some? && (exists k :: 0 <= k < |inline.value.text| && !IsSpace(inline.value.text[k])) &&
      inline.value.parse.Parsed?
  {
    if inline.Some? {
      TrimSpec(inline.value.text);
    }
  }

  /** The loader never fails: when both sources are unusable it yields one
      fallback record per card, so a page with cards gets records. */
  lemma FallbackCoversCards(protocol: string, fetch: FetchOutcome, inline: Option<InlineScript>, cards: seq<Card>)
    requires SelectSource(protocol, fetch, inline) == DomFallback
    ensures var data := LoadResult(protocol, fetch, inline, cards);
      && |data| == |cards|
      && (forall i :: 0 <= i < |cards| ==> data[i].title.value == TextOr(cards[i].title, DefaultTitle))
      && (forall i :: 0 <= i < |data| ==> data[i].mealType.None?)
  {
  }
}
