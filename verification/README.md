# Book recommendation lookup: a Dafny model of its decision layers

The application lets a user type part of a book title, pick one of the live
suggestions, and see books similar to it. This project models three
sequential decision layers of it as pure functions over immutable state:

- the **search box** (`frontend/src/components/SearchBox.tsx`): the
  catalogue filter, which keeps titles containing the query case-insensitively,
  in catalogue order, capped at 8. Around it sits a state machine over
  query, suggestions, loading flag, dropdown flag, focus, the single debounce
  timer, the blur-close timers and the catalogue fetches in flight;
- the **home page** (`frontend/src/app/page.tsx`): the
  `(selectedBook, prediction, error)` lifecycle of a recommendation request,
  the error message derived from each kind of failure, and the choice of one
  of five results panels;
- the **backend guards** (`main.py`): `GET /books` (503, whole list, or up
  to 10 fuzzy matches) and `GET /recommend/{book_name}` (503, then 404, then
  400, then the recommender).

Timers and network calls are explicit. A pending debounce timer is state, and
its firing is an event. A fetch that has started is recorded in flight, and
its settling is an event carrying the response. Events are applied in the
order they arrive. A catalogue fetch keeps the text it was started for and
filters with it, but nothing compares that text with the current query when
the fetch settles, and a recommendation response is never compared with the
current selection. Overlapping fetches therefore resolve "last to arrive wins". The model
keeps that: `SearchBox.StaleFetchOverwrites` and
`HomePage.StaleFailureShownForNewerBook` exhibit it, and
`HomePage.SettlementIgnoresRequest` states it for all inputs.

The fuzzy matcher (`fuzz.partial_ratio(...) > 70`) and the recommender
(`recommend_books`) are foreign code. They enter as function-valued
parameters, so every property holds whatever they do.

Module layout: `Maybe` (optional values), `Text` (ASCII lower-casing,
substring search, decimal digits), `Seqs` (order-preserving filter and
truncation), `CatalogFilter`, `SearchBox`, `HomePage`, `BooksApi`, and `App`
(the search box wired to the page, and backend answers read by the frontend).

Behaviours of the code the model keeps:

- The length guard (a text of at most one character fetches nothing and
  clears the suggestions) runs when the debounce timer fires, not on the
  keystroke. A keystroke always opens the dropdown and schedules a timer.
- A non-OK recommendation response whose body fails to parse yields the parse
  error's own message. "Error: <status>" is used only when a parsed body has
  no truthy `detail`.
- The frontend caps suggestions at 8. The backend's query filter caps at 10.
  The frontend never sends that query; it filters the whole list itself.
- `clearSearch` does not cancel a pending debounce timer. A text typed just
  before clearing is still fetched afterwards (`SearchBox.ClearKeepsPendingTimer`).
- The results panel tests the error for truthiness. A failure whose message
  is empty would therefore leave the loading panel up (`HomePage.SingleRequestOutcome`).
- On success the page sets `prediction` and leaves `error` alone. After
  overlapping requests, an earlier failure's message can sit beside a later
  success's list; the error panel wins.

## Model

| member | source | states |
|---|---|---|
| CatalogFilter.Matching | frontend/src/components/SearchBox.tsx:29-30 | every kept title matches the query case-insensitively, and each title is kept exactly as many times as the catalogue lists it if it matches, otherwise never |
| CatalogFilter.MatchingKeepsOrder | frontend/src/components/SearchBox.tsx:29-30 | the matches of a concatenated catalogue are the matches of each part in order, so catalogue order is preserved |
| CatalogFilter.Suggest | frontend/src/components/SearchBox.tsx:29-32 | at most 8 suggestions, each matching the query, forming a prefix of the matches of length min(8, number of matches) |
| CatalogFilter.FilterSuggestions | frontend/src/components/SearchBox.tsx:29-32 | one pass collecting matches and then cutting to 8 yields exactly the suggestion list |
| CatalogFilter.SuggestExactWhenFewMatches | frontend/src/components/SearchBox.tsx:29-31 | with at most 8 matches, a title is suggested iff it is in the catalogue and matches, with its catalogue multiplicity |
| CatalogFilter.SuggestFullWhenManyMatches | frontend/src/components/SearchBox.tsx:31 | with more than 8 matches exactly 8 are suggested |
| CatalogFilter.SuggestFromCatalogue | frontend/src/components/SearchBox.tsx:29-32 | every suggestion is a catalogue title |
| CatalogFilter.MatchingStep | frontend/src/components/SearchBox.tsx:29-30 | one more catalogue entry extends the matches by that entry exactly when it matches |
| SearchBox.HandleChange | frontend/src/components/SearchBox.tsx:42-51 | a keystroke sets the text and opens the dropdown at once, whatever the length, and replaces the pending timer by one carrying the new text; suggestions, loading and fetches are untouched |
| SearchBox.DebounceCallback | frontend/src/components/SearchBox.tsx:47-50 | when the timer fires, a text of length at most 1 empties the suggestions and starts no fetch; a longer text starts one fetch for itself and raises loading |
| SearchBox.StartFetch | frontend/src/components/SearchBox.tsx:19-20 | starting a fetch raises loading and puts that query in flight, changing nothing else |
| SearchBox.FetchSettled | frontend/src/components/SearchBox.tsx:21-40 | any settlement lowers loading; success shows the filtered catalogue for the fetch's own query, failure shows none; text, dropdown and timer are untouched |
| SearchBox.HandleSelect | frontend/src/components/SearchBox.tsx:53-57 | selecting sets the text to the title, closes the dropdown and hands that book on once; suggestions, loading and timers are untouched |
| SearchBox.ClearSearch | frontend/src/components/SearchBox.tsx:59-63 | clearing empties text and suggestions and closes the dropdown; loading, the pending timer and fetches are untouched |
| SearchBox.ClearIdempotent | frontend/src/components/SearchBox.tsx:59-63 | clearing twice equals clearing once |
| SearchBox.HandleFocus | frontend/src/components/SearchBox.tsx:88-91 | focus sets focused and raises the dropdown flag |
| SearchBox.HandleBlur | frontend/src/components/SearchBox.tsx:92-95 | blur clears focused and schedules one more close timer, leaving the dropdown flag as it was |
| SearchBox.BlurClose | frontend/src/components/SearchBox.tsx:94 | a close timer firing lowers the dropdown flag and retires that timer |
| SearchBox.Step | frontend/src/components/SearchBox.tsx:53-57 | only a selection hands a book to the parent, and it hands exactly the clicked title |
| SearchBox.InitialEnabled | frontend/src/components/SearchBox.tsx:12-17 | on mount only a keystroke, focus or blur can happen: no timer, fetch, visible suggestion or clear button exists yet |
| SearchBox.DropdownNeedsSuggestions | frontend/src/components/SearchBox.tsx:115 | the dropdown shows only with its flag up and at least one suggestion: focusing shows it exactly when suggestions exist, and then each suggestion is clickable |
| SearchBox.ClearButtonRule | frontend/src/components/SearchBox.tsx:101 | the clear button shows for a non-empty text while nothing loads: after a keystroke exactly when the text is non-empty and no fetch is loading; a starting fetch hides it |
| SearchBox.InitialInv | frontend/src/components/SearchBox.tsx:12-17 | the mount state satisfies the invariant |
| SearchBox.StepPreservesInv | frontend/src/components/SearchBox.tsx:19-63 | every enabled event keeps: at most 8 suggestions, loading only while a fetch is in flight, every in-flight query longer than one character |
| SearchBox.RunPreservesInv | frontend/src/components/SearchBox.tsx:19-63 | the invariant holds after any run of enabled events |
| SearchBox.KeystrokeBurst | frontend/src/components/SearchBox.tsx:46-47 | a burst of keystrokes leaves one pending timer carrying the last text and starts no fetch |
| SearchBox.LengthGuard | frontend/src/components/SearchBox.tsx:47-50 | keystroke then timer: a short text clears suggestions without a fetch; a longer text starts exactly one fetch for that text; the keystroke alone leaves suggestions as they were |
| SearchBox.ClickWinsOverBlur | frontend/src/components/SearchBox.tsx:92-95 | a suggestion clickable before a blur stays clickable after it until the close timer fires, which hides the dropdown |
| SearchBox.StaleFetchOverwrites | frontend/src/components/SearchBox.tsx:19-40 | fetches for "ab" then "abc" settling in reverse order leave suggestions for "ab" under the text "abc", and loading went off with a fetch still in flight |
| SearchBox.ClearKeepsPendingTimer | frontend/src/components/SearchBox.tsx:59-63 | a clear does not stop the timer set by the previous keystroke: its fetch still starts with the box empty |
| HomePage.HandleBookSelect | frontend/src/app/page.tsx:25-28 | selecting a book from any state selects it and clears prediction and error before any response, adding its request |
| HomePage.StatusMessage | frontend/src/app/page.tsx:37 | the fallback message is "Error: " followed by the status in canonical decimal: digits that read back as the status, with no leading zero |
| HomePage.StatusMessageOf404 | frontend/src/app/page.tsx:37 | a 404 whose body has no detail yields exactly "Error: 404" |
| HomePage.ThrownBy | frontend/src/app/page.tsx:35-40 | success throws nothing; a non-OK response throws an Error whose message is the truthy detail, else the status message, or the parse error when the body cannot be read; a thrown value passes through unchanged |
| HomePage.CaughtMessage | frontend/src/app/page.tsx:42-44 | an Error yields its own message; any other thrown value yields "Failed to fetch recommendations" |
| HomePage.Settled | frontend/src/app/page.tsx:30-45 | success stores the list or the empty list when absent and leaves the error; failure stores the caught message and leaves the prediction; the selection is never consulted |
| HomePage.FailureMessage | frontend/src/app/page.tsx:35-44 | the message each kind of failure leaves, and none for success |
| HomePage.Render | frontend/src/app/page.tsx:60-88 | exactly one of None / Error / Loading / Cards / Empty, by precedence selection, truthy error, null prediction, non-empty list; cards follow the list one for one |
| HomePage.Cards | frontend/src/app/page.tsx:71-84 | one card per book, in list order, with that book's image and title |
| HomePage.RunPreservesInv | frontend/src/app/page.tsx:21-45 | before a selection there is no result, error or request, and once selected a book stays selected |
| HomePage.ErrorTruthiness | frontend/src/app/page.tsx:65 | with a book selected the error panel shows exactly for a non-empty error, and an empty error renders as no error |
| HomePage.SelectionShowsLoading | frontend/src/app/page.tsx:25-28 | right after a selection the loading panel for that book is shown, from any state |
| HomePage.SingleRequestOutcome | frontend/src/app/page.tsx:40-88 | a lone request ends in cards, the empty message, or the error panel; an empty failure message leaves loading up; no failure sets a prediction |
| HomePage.ParsedFailureIsVisible | frontend/src/app/page.tsx:35-37 | a non-OK response with a parsed body always shows the error panel, with the detail or the status message |
| HomePage.SettlementIgnoresRequest | frontend/src/app/page.tsx:40-44 | what a settlement leaves does not depend on which request it answers |
| HomePage.LastSuccessWins | frontend/src/app/page.tsx:41 | of two successes, the one arriving last decides the list |
| HomePage.StaleFailureShownForNewerBook | frontend/src/app/page.tsx:25-45 | select A then B; B succeeds, then A fails: A's error is shown under B's heading |
| BooksApi.NotFound | main.py:170 | the 404 detail is "Book '", the name, then "' not found" |
| BooksApi.GetAllBooks | main.py:146-161 | 503 when not loaded whatever the query; no or empty query returns the catalogue unchanged; otherwise at most 10 fuzzy matches, the catalogue-order prefix of all matches |
| BooksApi.GetAllBooksFromCatalogue | main.py:155-160 | every returned title is a catalogue title |
| BooksApi.GuardRecommendation | main.py:164-173 | 503 first, then 404 for an unknown title, then 400 for a count outside 1..20 (absent means 5); dispatch iff all pass, with the same name and count |
| BooksApi.GetRecommendation | main.py:163-175 | a rejection is the response; otherwise the recommender's answer for the same name and count is |
| BooksApi.GuardOrder | main.py:166-173 | a rejection is 503, 404 or 400, and a 404 or 400 implies the earlier guards passed |
| App.InitialState | frontend/src/app/page.tsx:21-23 | on mount both components satisfy their invariants, the results area shows nothing, and neither the dropdown nor the clear button is rendered |
| App.Step | frontend/src/app/page.tsx:59 | a search-box event moves the box by its own step and a suggestion click starts the page's request for that title; no other search-box event touches the page; a settlement applies the page's settle step and does not touch the search box |
| App.SelectionStartsLoading | frontend/src/components/SearchBox.tsx:53-57 | clicking a suggestion puts its title in the box and shows loading for it in the same step |
| App.ClearKeepsRecommendations | frontend/src/components/SearchBox.tsx:59-63 | clearing the search box leaves the displayed results as they were |
| App.CatalogFrom | frontend/src/components/SearchBox.tsx:22-27 | a list answer is the catalogue; any error status is a failed fetch |
| App.CompletionFrom | frontend/src/app/page.tsx:33-41 | a success carries the body's list; an error carries its status and detail |
| App.SuggestionsFromBackend | frontend/src/components/SearchBox.tsx:22-37 | with a loaded backend the suggestions are the filtered whole catalogue; with an unloaded one there are none |
| App.UnknownTitleShowsNotFound | main.py:169-170 | a title the loaded backend does not know ends on the error panel with the backend's 404 detail |
| App.BackendDetailShownVerbatim | frontend/src/app/page.tsx:35-37 | any backend error with a non-empty detail is shown verbatim |
| App.KnownTitleShowsRecommender | main.py:175 | a known title with no count stores the recommender's list for that title and count 5, and the page shows it as cards, or the empty message when the list is empty |
| Text.Lower | frontend/src/components/SearchBox.tsx:30 | lower-casing keeps length and maps each character to a non-upper-case one |
| Text.DecimalRoundTrip | frontend/src/app/page.tsx:37 | a status written in decimal reads back as itself |
| Seqs.FilterAppend | main.py:155-158 | filtering distributes over concatenation |

## Left out

- Network and JSON: `fetch`, `res.json()` and the API host are replaced by response values given to the settle events. Every catalogue failure (network, non-OK status, bad JSON, non-string entries) is one `CatalogFailed`.
- Real time: the 300 ms and 200 ms delays are not modelled. Timers are pending work, and firing is an event the environment may deliver at any point.
- Unicode: `toLowerCase` and Python's `lower()` are modelled on ASCII letters only. String length counts characters, not UTF-16 code units.
- `fuzz.partial_ratio` and `recommend_books` (nearest neighbours, similarity normalisation, `fetch_book_details`) are opaque parameters. Their own failures appear only as the `Response` the recommender parameter returns.
- FastAPI request validation (a non-integer count answered with 422) and URL encoding and decoding of the title are not modelled. The title reaches the guards as selected.
- Rendering detail: markup, styles, icons, the image fallback, the footer and the focus-dependent styling are left out. The results panel is reduced to its branch, heading title and cards.
- The `/` and `/health` endpoints, model loading, CORS and server startup are left out. Only the loaded flag and the catalogue they leave behind are modelled.
- HomePage.Settled: a `recommendations` field that is present but not a list, or a `detail` that is not a string, is not modelled; both are taken to have the documented types.
- Logging: the `console.error` calls in both components and the `print` calls in the backend are not modelled; they change no state.
- `test_env.py` is an environment check with no logic to model.
