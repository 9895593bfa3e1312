# Recipe page model

A Dafny model of the client-side logic of the recipe site (`recipe.js`):
the navbar that hides on scroll, the search box that filters the recipe
cards, the start-up that assigns card ids and loads the recipe records
(network, then inline JSON, then records built from the cards), the
detail modal opened from a card and closed by three triggers, and the
meal-type buttons that show at most two cards of one meal type.

The DOM is replaced by plain state. `PageModel.Page` holds the cards as an
array of `Card` values (title and description text, recipe id, displayed
or not), the records (`recipesData`), the navbar flag with the stored
offset `lastScrollTop`, the container's `search-active` flag and the
modal's visibility and contents. Each event handler is a method of `Page`
that updates that state step by step as the script does. The search,
meal-filter, scroll, loader and modal-opening handlers are each proved
against a pure rule stated in its own module; id assignment and the close
handlers state their effect directly in their `ensures`. The modules:

- `Text`: ASCII lowercasing, whitespace trimming and substring search.
- `RecipeData`: records, cards, the id lookup and the count of displayed cards.
- `Search`: which cards a settled query displays.
- `MealFilter`: which cards a meal-type button displays.
- `Scroll`: the navbar rule for one scroll sample.
- `Loader`: the priority of the data sources and the fallback records.
- `Modal`: what the modal shows for a record.

The fallback records are built from every card in the document, not only
from the displayed ones. The loader's result is guaranteed non-empty only on
the fallback path, and there only when the page has a card: a successful
fetch or parse may yield an empty list.

## Model

| member | source | states |
|---|---|---|
| Text.Lower | recipe.js:36 | definition: `toLowerCase` applied character by character; its properties are `Text.LowerSpec` |
| Text.Trim | recipe.js:36 | definition: leading, then trailing whitespace dropped; its properties are `Text.TrimSpec` and `Text.TrimIdempotent` |
| Text.Includes | recipe.js:46 | `includes` is true exactly when the query occurs at some position of the text |
| Text.TrimSpec | recipe.js:36 | the trimmed text is the slice of the input left after removing a run of whitespace at each end; it starts and ends with a non-space, and is empty exactly when the input is all whitespace |
| Text.TrimIdempotent | recipe.js:36 | trimming an already trimmed text changes nothing (of `trim` as used for the query here and for the inline JSON and card texts at lines 91 and 103-104) |
| Text.LowerSpec | recipe.js:36 | lowercasing keeps the length, turns each letter A-Z into the same letter a-z, keeps every other character and is idempotent |
| Text.IncludesEmpty | recipe.js:46 | the empty query occurs in every text |
| Search.EmptyFilterShortcut | recipe.js:43-46 | the `!filter` branch agrees with the substring test, since every text includes the empty filter |
| RecipeData.RecipeFor | recipe.js:121-122 | definition: the record at the card's id, `None` when the id is unset or past the end; used by `Page.Lookup`, `MealFilter.IsMealMatch` and `Page.FilterByMealType` |
| RecipeData.CountVisible | recipe.js:37-52 | the number of displayed cards never exceeds the number of cards |
| RecipeData.CountVisibleAll | recipe.js:43-45 | all cards displayed gives the card count, none displayed gives zero |
| Search.CardMatches | recipe.js:43-51 | definition: the filter is empty or occurs in the lowercased title or description; its meaning is stated by `Search.SearchResult` |
| Search.SearchResult | recipe.js:39-52 | after a pass the cards are the same up to visibility, and a card is displayed exactly when the filter is empty or occurs in its lowercased title or description (missing text counting as "") |
| Search.FilterEmptyIffBlank | recipe.js:36 | the lowercased, trimmed query is empty exactly when the query is all whitespace |
| Search.SearchIgnoresVisibility | recipe.js:39-52 | every branch assigns visibility, so cards differing only in visibility give the same result |
| Search.SearchIdempotent | recipe.js:39-52 | searching twice for the same query gives the state of searching once |
| Search.BlankQueryShowsAll | recipe.js:43-45 | a blank query displays every card, counts all of them and leaves `search-active` off |
| MealFilter.IsMealMatch | recipe.js:219-222 | definition: the card's record exists and its meal type equals the argument; used by `MealFilter.MatchCount` and `MealFilter.MealFilterResult` |
| MealFilter.MatchCount | recipe.js:222 | the number of cards whose record has the meal type never exceeds the number of cards |
| MealFilter.MealFilterResult | recipe.js:206-228 | the filter changes nothing about the cards but their visibility |
| MealFilter.MealFilterPrefix | recipe.js:218-228 | the decision for a card depends only on the cards before it |
| MealFilter.MealFilterCount | recipe.js:217-228 | exactly min(2, k) cards are displayed, where k cards match |
| MealFilter.MatchCountMonotone | recipe.js:222-224 | a longer prefix has at least as many matches |
| MealFilter.MealFilterKeepsEarliest | recipe.js:217-228 | a displayed card has no hidden matching card before it, so the displayed cards are the first matches in card order |
| MealFilter.MealFilterShowsOnlyMatches | recipe.js:222-227 | every displayed card's record has the requested meal type, and at most two cards are displayed |
| MealFilter.MealFilterIgnoresVisibility | recipe.js:208-228 | the visibility before the click has no effect on the outcome |
| MealFilter.MatchCountIgnoresVisibility | recipe.js:219-222 | cards that differ only in visibility have the same match count |
| MealFilter.NoMealTypesHidesAll | recipe.js:106-114 | with records that carry no meal type (as the fallback records) no card matches and every card is hidden |
| Scroll.ScrollStep | recipe.js:6-11 | the navbar is hidden exactly when the offset exceeds the stored one; the new stored offset is max(offset, 0) |
| Scroll.SettledScrollShowsNavbar | recipe.js:6-11 | a second sample at the same offset shows the navbar |
| Loader.SelectSource | recipe.js:78-97 | definition: the network when served over http(s) and the fetch succeeds, else the inline JSON when usable, else the records built from the cards; its properties are `Loader.FetchOnlyOverHttp`, `Loader.NetworkWins` and `Loader.InlineNeedsNonBlankParsedText` |
| Loader.LoadResult | recipe.js:76-118 | definition: the records of the selected source; its properties are the `Loader` lemmas below |
| Loader.FallbackRecord | recipe.js:102-114 | definition: the record built from one card; its shape is `Loader.FallbackRecordShape` |
| Loader.FallbackData | recipe.js:101-117 | definition: one fallback record per card, in card order; stated by `Loader.FallbackCoversCards` |
| Loader.TextOr | recipe.js:103-104 | the trimmed text when it is non-blank, the default otherwise; never empty |
| Loader.FallbackRecordShape | recipe.js:106-114 | a fallback record has a non-empty title and description, one placeholder ingredient, one placeholder step, one nutrition entry and no meal type |
| Loader.FetchOnlyOverHttp | recipe.js:78-88 | off `http:`/`https:` the fetch outcome has no effect on the result |
| Loader.NetworkWins | recipe.js:78-82 | a successful fetch over http(s) is the result, whatever the inline element holds |
| Loader.InlineNeedsNonBlankParsedText | recipe.js:90-97 | the inline records are used exactly when the fetch did not succeed, the element exists, its text has a non-space character and it parses |
| Loader.FallbackCoversCards | recipe.js:99-117 | on the fallback path there is one record per card, in card order, titled from the card, with no meal type |
| Modal.Render | recipe.js:129-155 | definition: title and description or "", ingredients and steps or [], the nutrition table; `Page.OpenRecipeFromCard` is proved to produce it |
| Modal.NutritionRows | recipe.js:148-155 | the nutrition table is the header row followed by one row per entry, in order, and nothing else |
| Modal.NutritionRowsRoundTrip | recipe.js:149-155 | dropping the header row gives back the record's nutrition entries |
| PageModel.Page.constructor | recipe.js:1 | the page starts with no records, the navbar shown, stored offset 0, `search-active` off and the modal closed |
| PageModel.Page.OnScroll | recipe.js:4-12 | the navbar flag and stored offset become the scroll rule applied to the old stored offset and the sample |
| PageModel.Page.PerformSearch | recipe.js:35-63 | the cards become the search result for the lowercased, trimmed query; `matches` is the number of displayed cards; `search-active` is set exactly when the filter is non-empty and something matched, and untouched without a container |
| PageModel.Page.SetUpRecipeIds | recipe.js:70-74 | card i gets id i and nothing else about the cards changes |
| PageModel.Page.LoadRecipes | recipe.js:76-118 | the records are those of the first usable source in priority order |
| PageModel.Page.BuildFallbackData | recipe.js:99-117 | one fallback record per card, in card order, with the default strings and placeholders |
| PageModel.Page.InitApp | recipe.js:161-163 | ids are assigned, then the loaded records stored; on the fallback path every card id indexes a record and no record has a meal type |
| PageModel.Page.OpenRecipeFromCard | recipe.js:120-158 | a card without a record changes nothing; otherwise the modal shows the record's title, description, ingredients and steps (old items discarded), the nutrition table, and becomes visible |
| PageModel.Page.OnCloseClick | recipe.js:177-179 | the close button hides the modal |
| PageModel.Page.OnWindowClick | recipe.js:182-186 | a click on the backdrop hides the modal; any other click leaves it as it was |
| PageModel.Page.OnKeyDown | recipe.js:189-193 | Escape hides the modal; any other key leaves it as it was |
| PageModel.Page.FilterByMealType | recipe.js:206-229 | given that every card id indexes a record, the cards become the meal-filter result and min(2, k) of them are displayed |
| PageModel.Close | recipe.js:177-193 | each of the three triggers hides the modal, and closing a modal that is already hidden changes nothing |
| PageModel.OpenThenClose | recipe.js:120-193 | after opening a card and closing by any trigger the modal is hidden; it shows the card's record when there is one, and what it showed before when there is none |

## Left out

- Event wiring and element lookups (`addEventListener`, `querySelector`, `getElementById`, `closest`): the handlers are methods called directly; a `.recipe-btn` that is not inside a `.recipe-template` (where `closest` gives null) is the argument `None`.
- The debounce around the search: it is timer scheduling; the search is called with the settled query.
- `fetch`, `res.json()` and `JSON.parse`: foreign calls, modelled as success or failure outcomes that carry a list of records; a non-success HTTP status is a failed fetch.
- The `await` ordering of start-up: `InitApp` runs id assignment and loading in sequence.
- The HTML markup of the nutrition rows: rows are (name, amount) pairs.
- Unicode semantics of `toLowerCase` and `trim`: lowercasing maps ASCII A-Z only, and trimming removes space, tab, line feed, vertical tab, form feed and carriage return.
- Console logging.
- The unused `visibleCards` list in the meal filter and the one-off `recipe-container` class setup at load; the existence of a container is the constant `hasContainer`.
- Records that are not objects, or fields of other JSON types than the ones declared (a number title, a null record): every record field is a string, a string list or an ordered key/value list, or absent.
- Card ids as JavaScript numbers: an id is a natural number or unset, so `NaN` lookups are the unset case.
- Fractional scroll offsets: offsets are integers.
- PageModel.Page.FilterByMealType: requires every card id to index a record; when one does not, the script throws a `TypeError` part-way through the pass, leaving the earlier cards updated and the later ones displayed by the reset pass, and that path is not modelled.
