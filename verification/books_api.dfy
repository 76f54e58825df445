/** The request guards of the backend (main.py, `get_all_books` and
    `get_recommendation`). The fuzzy matcher and the recommender are
    foreign code and enter as parameters: `similar(a, b)` stands for
    `fuzz.partial_ratio(a, b) > 70`, and `recommend(name, n)` for
    `recommend_books(name, n)`, which may itself fail with an HTTP error. */
module BooksApi {
  import opened Maybe
  import Text
  import Seqs

  /** An `HTTPException`: the status and the `detail` string sent back. */
  datatype HttpError = HttpError(status: nat, detail: string)

  datatype Response<T> = Ok(body: T) | Err(error: HttpError)

  /** What the loader left behind: whether the model loaded, and the
      catalogue titles. */
  datatype Server = Server(modelLoaded: bool, bookNames: seq<string>)

  /** Outcome of the three guards: a rejection, or the call to make. */
  datatype Guarded = Rejected(error: HttpError) | Dispatch(name: string, count: int)

  const UnavailableDetail := "Book recommendation service is currently unavailable. Please try again later."
  const CountDetail := "Number of recommendations must be between 1 and 20"
  const MaxQueryMatches: nat := 10
  const MinRecommendations := 1
  const MaxRecommendations := 20
  const DefaultRecommendations := 5

  function Unavailable(): HttpError { HttpError(503, UnavailableDetail) }

  /** The 404 detail naming the missing book. */
  function NotFound(name: string): (e: HttpError)
    ensures e.status == 404
    ensures |e.detail| == |"Book '"| + |name| + |"' not found"|
    ensures e.detail[..|"Book '"|] == "Book '"
    ensures e.detail[|"Book '"|..|e.detail| - |"' not found"|] == name
    ensures e.detail[|e.detail| - |"' not found"|..] == "' not found"
  {
    var d := "Book '" + name + "' not found";
    assert d[|"Book '"|..|d| - |"' not found"|] == name;
    HttpError(404, d)
  }

  /** The fuzzy filter applied to lower-cased query and title. */
  function Similar(q: string, similar: (string, string) -> bool): string -> bool
  {
    b => similar(Text.Lower(q), Text.Lower(b))
  }

  /** `GET /books`: 503 while the model is not loaded; with no query or an
      empty one, the whole catalogue; otherwise the first ten catalogue
      titles the fuzzy matcher accepts, in catalogue order. */
  function GetAllBooks(srv: Server, query: Option<string>, similar: (string, string) -> bool)
    : (r: Response<seq<string>>)
    ensures !srv.modelLoaded ==> r == Err(Unavailable())
    ensures srv.modelLoaded && (query.None? || query.value == "") ==> r == Ok(srv.bookNames)
    ensures srv.modelLoaded && query.Some? && query.value != "" ==>
              && r.Ok?
              && |r.body| <= MaxQueryMatches
              && (forall i :: 0 <= i < |r.body| ==>
                    similar(Text.Lower(query.value), Text.Lower(r.body[i])))
              && Seqs.IsPrefix(r.body, Seqs.Filter(srv.bookNames, Similar(query.value, similar)))
              && (|r.body| < MaxQueryMatches ==>
                    r.body == Seqs.Filter(srv.bookNames, Similar(query.value, similar)))
  {
    if !srv.modelLoaded then Err(Unavailable())
    else if query.Some? && query.value != "" then
      var matches := Seqs.Filter(srv.bookNames, Similar(query.value, similar));
      Seqs.TakeIsPrefix(matches, MaxQueryMatches);
      Ok(Seqs.Take(matches, MaxQueryMatches))
    else Ok(srv.bookNames)
  }

  /** Every title `GET /books` returns is a catalogue title. */
  lemma GetAllBooksFromCatalogue(srv: Server, query: Option<string>, similar: (string, string) -> bool)
    requires GetAllBooks(srv, query, similar).Ok?
    ensures forall i :: 0 <= i < |GetAllBooks(srv, query, similar).body| ==>
              GetAllBooks(srv, query, similar).body[i] in srv.bookNames
  {
    if query.Some? && query.value != "" {
      Seqs.TakeFilterFromSource(srv.bookNames, Similar(query.value, similar), MaxQueryMatches);
    }
  }

  /** The guards of `GET /recommend/{book_name}`, in their fixed order:
      503 when the model is not loaded, then 404 for a title outside the
      catalogue, then 400 for a count outside 1..20 (an absent count is
      5); only then the call, with the same name and count. */
  function GuardRecommendation(srv: Server, bookName: string, count: Option<int>): (r: Guarded)
    ensures !srv.modelLoaded ==> r == Rejected(Unavailable())
    ensures srv.modelLoaded && bookName !in srv.bookNames ==> r == Rejected(NotFound(bookName))
    ensures srv.modelLoaded && bookName in srv.bookNames
            && !(MinRecommendations <= count.GetOr(DefaultRecommendations) <= MaxRecommendations) ==>
              r == Rejected(HttpError(400, CountDetail))
    ensures r.Dispatch? <==> srv.modelLoaded && bookName in srv.bookNames
                             && MinRecommendations <= count.GetOr(DefaultRecommendations) <= MaxRecommendations
    ensures r.Dispatch? ==> r.name == bookName && r.count == count.GetOr(DefaultRecommendations)
  {
    var n := count.GetOr(DefaultRecommendations);
    if !srv.modelLoaded then Rejected(Unavailable())
    else if bookName !in srv.bookNames then Rejected(NotFound(bookName))
    else if n < MinRecommendations || n > MaxRecommendations then Rejected(HttpError(400, CountDetail))
    else Dispatch(bookName, n)
  }

  /** `GET /recommend/{book_name}`: a guard's rejection is the response;
      otherwise the recommender's answer is. */
  function GetRecommendation<R>(srv: Server, bookName: string, count: Option<int>,
                                recommend: (string, int) -> Response<R>): (r: Response<R>)
    ensures GuardRecommendation(srv, bookName, count).Rejected? ==>
              r == Err(GuardRecommendation(srv, bookName, count).error)
    ensures GuardRecommendation(srv, bookName, count).Dispatch? ==>
              r == recommend(bookName, count.GetOr(DefaultRecommendations))
  {
    match GuardRecommendation(srv, bookName, count)
    case Rejected(e) => Err(e)
    case Dispatch(name, n) => recommend(name, n)
  }

  /** A rejection by the guards is always one of the three statuses, and
      an earlier guard masks the later ones. */
  lemma GuardOrder(srv: Server, bookName: string, count: Option<int>)
    ensures var g := GuardRecommendation(srv, bookName, count);
            && (g.Rejected? ==> g.error.status in {503, 404, 400})
            && (g.Rejected? && g.error.status == 400 ==> srv.modelLoaded && bookName in srv.bookNames)
            && (g.Rejected? && g.error.status == 404 ==> srv.modelLoaded)
  {
  }
}
