/** The page with its search box, and the backend answers the two
    frontend fetches receive. The search box's only output, the book handed
    to `onBookSelect`, starts the page's recommendation request; nothing
    flows the other way. */
module App {
  import opened Maybe
  import SearchBox
  import HomePage
  import BooksApi
  import CatalogFilter

  datatype AppState = AppState(search: SearchBox.SearchState, page: HomePage.PageState)

  datatype Event =
    | InSearch(e: SearchBox.Event)
    | RecommendationSettles(title: string, completion: HomePage.Completion)

  /** The success body of `GET /recommend/...`. */
  datatype Recommendation = Recommendation(searchedBook: HomePage.BookInfo, recommendations: seq<HomePage.BookInfo>)

  const Initial := AppState(SearchBox.Initial, HomePage.Initial)

  predicate Enabled(a: AppState, e: Event)
  {
    match e
    case InSearch(se) => SearchBox.Enabled(a.search, se)
    case RecommendationSettles(t, c) => HomePage.Enabled(a.page, HomePage.Settle(t, c))
  }

  /** A search-box event updates the box and, when it selects a book,
      starts the page's request for it; a settlement updates the page. */
  function Step(a: AppState, e: Event): (r: AppState)
    requires Enabled(a, e)
    ensures e.InSearch? && e.e.Select? ==> r.page == HomePage.HandleBookSelect(a.page, e.e.title)
    ensures e.InSearch? && !e.e.Select? ==> r.page == a.page
    ensures e.RecommendationSettles? ==> r.search == a.search
    ensures e.InSearch? ==> r.search == SearchBox.Step(a.search, e.e).next
    ensures e.RecommendationSettles? ==> r.page == HomePage.Settled(a.page, e.title, e.completion)
  {
    match e
    case InSearch(se) =>
      var tr := SearchBox.Step(a.search, se);
      var page := match tr.selected
        case Some(t) => HomePage.HandleBookSelect(a.page, t)
        case None => a.page;
      AppState(tr.next, page)
    case RecommendationSettles(t, c) =>
      a.(page := HomePage.Settled(a.page, t, c))
  }

  /** On mount both components are in their invariant states, and nothing
      is selected, shown or pending. */
  lemma InitialState()
    ensures SearchBox.Inv(Initial.search) && HomePage.Inv(Initial.page)
    ensures HomePage.Render(Initial.page) == HomePage.NoPanel
    ensures !SearchBox.DropdownVisible(Initial.search) && !SearchBox.ClearButtonShown(Initial.search)
  {
  }

  /** Clicking a suggestion puts its title in the box and, in the same
      step, shows loading for it in the results area. */
  lemma SelectionStartsLoading(a: AppState, t: string)
    requires Enabled(a, InSearch(SearchBox.Select(t)))
    ensures Step(a, InSearch(SearchBox.Select(t))).search.query == t
    ensures HomePage.Render(Step(a, InSearch(SearchBox.Select(t))).page) == HomePage.LoadingPanel(t)
    ensures t in Step(a, InSearch(SearchBox.Select(t))).page.pending
  {
    HomePage.SelectionShowsLoading(a.page, t);
  }

  /** Clearing the search box leaves the displayed recommendations as
      they were. */
  lemma ClearKeepsRecommendations(a: AppState)
    requires Enabled(a, InSearch(SearchBox.Clear))
    ensures HomePage.Render(Step(a, InSearch(SearchBox.Clear)).page) == HomePage.Render(a.page)
    ensures Step(a, InSearch(SearchBox.Clear)).search.query == ""
  {
  }

  /** How the search box reads a `/books` answer: a list is a catalogue,
      any error status is a failed fetch. */
  function CatalogFrom(r: BooksApi.Response<seq<string>>): (c: SearchBox.CatalogResponse)
    ensures c.CatalogOk? <==> r.Ok?
    ensures r.Ok? ==> c.titles == r.body
  {
    match r
    case Ok(titles) => SearchBox.CatalogOk(titles)
    case Err(_) => SearchBox.CatalogFailed
  }

  /** How the page reads a `/recommend/...` answer: the body's list on
      success, the error status with its parsed `detail` otherwise. */
  function CompletionFrom(r: BooksApi.Response<Recommendation>): (c: HomePage.Completion)
    ensures c.Ok? <==> r.Ok?
    ensures r.Ok? ==> c.recommendations == Some(r.body.recommendations)
    ensures r.Err? ==> c == HomePage.NotOk(r.error.status, HomePage.Parsed(Some(r.error.detail)))
  {
    match r
    case Ok(body) => HomePage.Ok(Some(body.recommendations))
    case Err(e) => HomePage.NotOk(e.status, HomePage.Parsed(Some(e.detail)))
  }

  /** The search box asks `/books` with no query, so a loaded backend
      hands it the whole catalogue and the suggestions are the filtered
      catalogue; an unloaded backend's 503 leaves no suggestions. */
  lemma SuggestionsFromBackend(a: AppState, q: string, srv: BooksApi.Server,
                               similar: (string, string) -> bool)
    requires q in a.search.inFlight
    ensures var ev := InSearch(SearchBox.FetchSettles(q, CatalogFrom(BooksApi.GetAllBooks(srv, None, similar))));
            && Enabled(a, ev)
            && (srv.modelLoaded ==> Step(a, ev).search.suggestions == CatalogFilter.Suggest(srv.bookNames, q))
            && (!srv.modelLoaded ==> Step(a, ev).search.suggestions == [])
  {
  }

  /** The page asks `/recommend/{title}` with no count. For a title the
      loaded backend does not know, the results area ends on the backend's
      own 404 detail. */
  lemma UnknownTitleShowsNotFound(p: HomePage.PageState, srv: BooksApi.Server, t: string,
                                  recommend: (string, int) -> BooksApi.Response<Recommendation>)
    requires srv.modelLoaded && t !in srv.bookNames
    ensures var c := CompletionFrom(BooksApi.GetRecommendation(srv, t, None, recommend));
            HomePage.Render(HomePage.Settled(HomePage.HandleBookSelect(p, t), t, c))
              == HomePage.ErrorPanel(t, BooksApi.NotFound(t).detail)
  {
  }

  /** Any backend error with a non-empty detail reaches the results area
      verbatim, whatever its status. */
  lemma BackendDetailShownVerbatim(p: HomePage.PageState, t: string, e: BooksApi.HttpError)
    requires e.detail != ""
    ensures HomePage.Render(HomePage.Settled(HomePage.HandleBookSelect(p, t), t,
                                             CompletionFrom(BooksApi.Err(e))))
              == HomePage.ErrorPanel(t, e.detail)
  {
  }

  /** A recommendation request the backend accepts returns what the
      recommender produced for the same title and the default count of
      five; the page stores it and shows it as cards, or the empty message
      when the list is empty. */
  lemma KnownTitleShowsRecommender(p: HomePage.PageState, srv: BooksApi.Server, t: string,
                                   recommend: (string, int) -> BooksApi.Response<Recommendation>)
    requires srv.modelLoaded && t in srv.bookNames
    requires recommend(t, BooksApi.DefaultRecommendations).Ok?
    ensures var body := recommend(t, BooksApi.DefaultRecommendations).body;
            var c := CompletionFrom(BooksApi.GetRecommendation(srv, t, None, recommend));
            HomePage.Settled(HomePage.HandleBookSelect(p, t), t, c).prediction
              == Some(body.recommendations)
    ensures var body := recommend(t, BooksApi.DefaultRecommendations).body;
            var c := CompletionFrom(BooksApi.GetRecommendation(srv, t, None, recommend));
            HomePage.Render(HomePage.Settled(HomePage.HandleBookSelect(p, t), t, c))
              == if |body.recommendations| > 0
                 then HomePage.CardsPanel(t, HomePage.Cards(body.recommendations))
                 else HomePage.EmptyPanel(t)
  {
  }
}
