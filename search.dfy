/** The search filter's rule: which cards a settled query displays. */
module Search {
  import opened Text
  import opened RecipeData

  /** The query as the filter uses it: lowercased, then trimmed. */
  function Filter(query: string): string {
    Trim(Lower(query))
  }

  /** A card field's searchable text: lowercased, "" when the element is
      missing. */
  function SearchText(t: Option<string>): string {
    Lower(GetOr(t, ""))
  }

  /** The match rule: an empty filter shows every card, otherwise the filter
      must occur in the lowercased title or description. */
  predicate CardMatches(filter: string, c: Card) {
    filter == [] || Includes(SearchText(c.title), filter) || Includes(SearchText(c.description), filter)
  }

  /** The cards after a search pass: the same cards, each displayed exactly
      when the filter is empty or occurs in its title or description. */
  function SearchResult(cards: seq<Card>, filter: string): (r: seq<Card>)
    ensures SameCards(cards, r)
    ensures forall i :: 0 <= i < |r| ==>
      (r[i].visible <==>
        filter == [] ||
        (exists k :: OccursAt(SearchText(cards[i].title), filter, k)) ||
        (exists k :: OccursAt(SearchText(cards[i].description), filter, k)))
  {
    seq(|cards|, i requires 0 <= i < |cards| => cards[i].(visible := CardMatches(filter, cards[i])))
  }

  /** The container's `search-active` flag after a pass that counted
      `matches` displayed cards. */
  predicate SearchActive(filter: string, matches: nat) {
    filter != [] && matches > 0
  }

  /** The filter is empty exactly when the query is all whitespace. */
  lemma FilterEmptyIffBlank(query: string)
    ensures Filter(query) == [] <==> forall k :: 0 <= k < |query| ==> IsSpace(query[k])
  {
    var low := Lower(query);
    LowerSpec(query);
    TrimSpec(low);
    forall k | 0 <= k < |query|
      ensures IsSpace(low[k]) <==> IsSpace(query[k])
    {
      if IsUpper(query[k]) {
        assert !IsSpace(query[k]);
        assert low[k] == LowerChar(query[k]);
      }
    }
  }

  /** The `!filter` branch is only a shortcut: the empty filter occurs in
      every text, so the match rule is the substring test alone. */
  lemma EmptyFilterShortcut(filter: string, c: Card)
    ensures CardMatches(filter, c) == (Includes(SearchText(c.title), filter) || Includes(SearchText(c.description), filter))
  {
    if filter == [] {
      IncludesEmpty(SearchText(c.title));
    }
  }

  /** A pass looks only at the card texts, never at which cards were
      displayed before. */
  lemma SearchIgnoresVisibility(a: seq<Card>, b: seq<Card>, filter: string)
    requires SameCards(a, b)
    ensures SearchResult(a, filter) == SearchResult(b, filter)
  {
    var ra, rb := SearchResult(a, filter), SearchResult(b, filter);
    forall i | 0 <= i < |a|
      ensures ra[i] == rb[i]
    {
      assert a[i].title == b[i].title && a[i].description == b[i].description;
    }
  }

  /** Searching twice for the same query leaves the cards as searching once. */
  lemma SearchIdempotent(cards: seq<Card>, filter: string)
    ensures SearchResult(SearchResult(cards, filter), filter) == SearchResult(cards, filter)
  {
    SearchIgnoresVisibility(SearchResult(cards, filter), cards, filter);
  }

  /** A blank query displays every card, and the count equals the number of
      cards. */
  lemma BlankQueryShowsAll(cards: seq<Card>, query: string)
    requires forall k :: 0 <= k < |query| ==> IsSpace(query[k])
    ensures forall i :: 0 <= i < |cards| ==> SearchResult(cards, Filter(query))[i].visible
    ensures CountVisible(SearchResult(cards, Filter(query))) == |cards|
    ensures !SearchActive(Filter(query), |cards|)
  {
    FilterEmptyIffBlank(query);
    CountVisibleAll(SearchResult(cards, Filter(query)));
  }
}
