/** The home page (frontend/src/app/page.tsx): the recommendation request
    lifecycle started by `handleBookSelect`, the error message it derives
    from a failed response, and the choice of what the results panel shows.
    Requests overlap freely: each settlement is applied when it arrives,
    whichever selection it was made for. */
module HomePage {
  import opened Maybe
  import Text

  /** The two fields of a recommended book the page reads. */
  datatype BookInfo = BookInfo(title: string, imageUrl: string)

  /** `selectedBook`, `prediction` (null is `None`) and `error`, plus the
      titles whose recommendation request has not settled yet. */
  datatype PageState = PageState(
    selected: Option<string>,
    prediction: Option<seq<BookInfo>>,
    error: Option<string>,
    pending: multiset<string>)

  /** The body of a non-OK response: parsed JSON with or without a usable
      `detail`, or a body whose parse threw an error with this message. */
  datatype ErrorBody = Parsed(detail: Option<string>) | Unparsable(parseError: string)

  /** What the `catch` block receives: an `Error` carrying a message, or
      any other thrown value. */
  datatype Thrown = ErrorObject(message: string) | NonError

  /** How a recommendation request ends. */
  datatype Completion =
    | Ok(recommendations: Option<seq<BookInfo>>)
    | NotOk(status: nat, body: ErrorBody)
    | Threw(thrown: Thrown)

  datatype Event = Choose(title: string) | Settle(title: string, completion: Completion)

  /** One card of the results list: the cover image and the title. */
  datatype Card = Card(imageUrl: string, title: string)

  /** The five mutually exclusive things the results area can show; all but
      the first carry the selected title echoed in the heading. */
  datatype View =
    | NoPanel
    | ErrorPanel(book: string, message: string)
    | LoadingPanel(book: string)
    | CardsPanel(book: string, cards: seq<Card>)
    | EmptyPanel(book: string)

  const Initial := PageState(None, None, None, multiset{})

  const GenericFailure := "Failed to fetch recommendations"

  /** The message thrown for a non-OK status whose body carried no usable
      detail. */
  function StatusMessage(status: nat): (m: string)
    ensures |m| > |"Error: "| && m[..|"Error: "|] == "Error: "
    ensures forall i :: |"Error: "| <= i < |m| ==> '0' <= m[i] <= '9'
    ensures Text.ParseDecimal(m[|"Error: "|..]) == status
    ensures m[|"Error: "|] != '0' || m[|"Error: "|..] == "0"
  {
    Text.DecimalRoundTrip(status);
    assert ("Error: " + Text.Decimal(status))[|"Error: "|..] == Text.Decimal(status);
    "Error: " + Text.Decimal(status)
  }

  /** The fallback for a 404 whose body has no detail. */
  lemma StatusMessageOf404()
    ensures StatusMessage(404) == "Error: 404"
  {
  }

  /** A JavaScript string is truthy when non-empty. */
  predicate Truthy(s: Option<string>)
  {
    s.Some? && s.value != ""
  }

  /** The value thrown inside the `try` block, or `None` on success: a
      non-OK response throws an `Error` whose message is the body's detail
      when truthy and the status message otherwise, or the parse error
      when the body cannot be read. */
  function ThrownBy(c: Completion): (t: Option<Thrown>)
    ensures t.None? <==> c.Ok?
    ensures c.NotOk? ==> t.Some? && t.value.ErrorObject?
    ensures c.NotOk? && c.body.Parsed? && Truthy(c.body.detail) ==>
              t == Some(ErrorObject(c.body.detail.value))
    ensures c.NotOk? && c.body.Parsed? && !Truthy(c.body.detail) ==>
              t == Some(ErrorObject(StatusMessage(c.status)))
    ensures c.NotOk? && c.body.Unparsable? ==> t == Some(ErrorObject(c.body.parseError))
    ensures c.Threw? ==> t == Some(c.thrown)
  {
    match c
    case Ok(_) => None
    case NotOk(status, Parsed(detail)) =>
      Some(ErrorObject(if Truthy(detail) then detail.value else StatusMessage(status)))
    case NotOk(_, Unparsable(parseError)) => Some(ErrorObject(parseError))
    case Threw(v) => Some(v)
  }

  /** The message the `catch` block stores: an `Error`'s own message, or
      the generic fallback for anything else. */
  function CaughtMessage(t: Thrown): (m: string)
    ensures t.ErrorObject? ==> m == t.message
    ensures t.NonError? ==> m != "" && m == GenericFailure
  {
    match t
    case ErrorObject(message) => message
    case NonError => GenericFailure
  }

  /** `handleBookSelect` up to its first `await`: the new book is selected,
      the previous result and error are cleared, and its request starts. */
  function HandleBookSelect(s: PageState, title: string): (r: PageState)
    ensures r.selected == Some(title) && r.prediction == None && r.error == None
    ensures r.pending == s.pending + multiset{title}
  {
    PageState(Some(title), None, None, s.pending + multiset{title})
  }

  /** The rest of `handleBookSelect`, when the request for `title` settles.
      Success stores the list (an absent field becomes the empty list) and
      leaves the error alone; failure stores the caught message and leaves
      the prediction alone. The selected book is never consulted. */
  function Settled(s: PageState, title: string, c: Completion): (r: PageState)
    ensures r.selected == s.selected
    ensures r.pending == s.pending - multiset{title}
    ensures c.Ok? ==> r.prediction == Some(c.recommendations.GetOr([])) && r.error == s.error
    ensures !c.Ok? ==> r.prediction == s.prediction
    ensures !c.Ok? ==> r.error == Some(CaughtMessage(ThrownBy(c).value))
  {
    var s' := s.(pending := s.pending - multiset{title});
    match ThrownBy(c)
    case None => s'.(prediction := Some(c.recommendations.GetOr([])))
    case Some(t) => s'.(error := Some(CaughtMessage(t)))
  }

  /** The error message a failed completion leaves, if it fails. */
  function FailureMessage(c: Completion): (m: Option<string>)
    ensures m.None? <==> c.Ok?
    ensures c.NotOk? && c.body.Parsed? && Truthy(c.body.detail) ==> m == c.body.detail
    ensures c.NotOk? && c.body.Parsed? && !Truthy(c.body.detail) ==> m == Some(StatusMessage(c.status))
    ensures c.NotOk? && c.body.Unparsable? ==> m == Some(c.body.parseError)
    ensures c.Threw? && c.thrown.ErrorObject? ==> m == Some(c.thrown.message)
    ensures c == Threw(NonError) ==> m == Some(GenericFailure)
  {
    match ThrownBy(c)
    case None => None
    case Some(t) => Some(CaughtMessage(t))
  }

  /** The results area: nothing before any selection; otherwise an error
      takes precedence, then a pending result shows loading, then a
      non-empty list shows one card per book in list order, and an empty
      list shows the empty message. */
  function Render(s: PageState): (v: View)
    ensures v.NoPanel? <==> s.selected.None?
    ensures v.ErrorPanel? <==> s.selected.Some? && Truthy(s.error)
    ensures v.LoadingPanel? <==> s.selected.Some? && !Truthy(s.error) && s.prediction.None?
    ensures v.CardsPanel? <==> s.selected.Some? && !Truthy(s.error)
                               && s.prediction.Some? && |s.prediction.value| > 0
    ensures v.EmptyPanel? <==> s.selected.Some? && !Truthy(s.error) && s.prediction == Some([])
    ensures !v.NoPanel? ==> v.book == s.selected.value
    ensures v.ErrorPanel? ==> v.message == s.error.value
    ensures v.CardsPanel? ==> |v.cards| == |s.prediction.value|
    ensures v.CardsPanel? ==> forall i :: 0 <= i < |v.cards| ==>
              v.cards[i] == Card(s.prediction.value[i].imageUrl, s.prediction.value[i].title)
  {
    match s.selected
    case None => NoPanel
    case Some(book) =>
      if Truthy(s.error) then ErrorPanel(book, s.error.value)
      else if s.prediction.None? then LoadingPanel(book)
      else if |s.prediction.value| > 0 then CardsPanel(book, Cards(s.prediction.value))
      else EmptyPanel(book)
  }

  /** One card per book, in list order. */
  function Cards(books: seq<BookInfo>): (cards: seq<Card>)
    ensures |cards| == |books|
    ensures forall i :: 0 <= i < |books| ==> cards[i] == Card(books[i].imageUrl, books[i].title)
  {
    seq(|books|, i requires 0 <= i < |books| => Card(books[i].imageUrl, books[i].title))
  }

  /** A settlement can only arrive for a request that is pending. */
  predicate Enabled(s: PageState, e: Event)
  {
    e.Settle? ==> e.title in s.pending
  }

  function Step(s: PageState, e: Event): PageState
    requires Enabled(s, e)
  {
    match e
    case Choose(title) => HandleBookSelect(s, title)
    case Settle(title, c) => Settled(s, title, c)
  }

  predicate ValidRun(s: PageState, es: seq<Event>)
    decreases |es|
  {
    es == [] || (Enabled(s, es[0]) && ValidRun(Step(s, es[0]), es[1..]))
  }

  function Run(s: PageState, es: seq<Event>): PageState
    requires ValidRun(s, es)
    decreases |es|
  {
    if es == [] then s else Run(Step(s, es[0]), es[1..])
  }

  /** Before the first selection there is no result, no error and no
      request; afterwards no event deselects the book. */
  predicate Inv(s: PageState)
  {
    s.selected.None? ==> s.prediction.None? && s.error.None? && s.pending == multiset{}
  }

  lemma {:induction false} RunPreservesInv(s: PageState, es: seq<Event>)
    requires Inv(s) && ValidRun(s, es)
    ensures Inv(Run(s, es))
    ensures s.selected.Some? ==> Run(s, es).selected.Some?
    decreases |es|
  {
    if es != [] {
      RunPreservesInv(Step(s, es[0]), es[1..]);
    }
  }

  /** The error panel tests the error for truthiness: with a book
      selected it shows exactly when the error is a non-empty string, and
      an empty error renders as no error at all. */
  lemma ErrorTruthiness(s: PageState)
    requires s.selected.Some?
    ensures Render(s).ErrorPanel? <==> s.error.Some? && s.error.value != ""
    ensures Render(s.(error := Some(""))) == Render(s.(error := None))
  {
  }

  /** Selecting a book from any state shows loading for it before any
      response is applied: no selection skips the loading state. */
  lemma SelectionShowsLoading(s: PageState, title: string)
    ensures Render(HandleBookSelect(s, title)) == LoadingPanel(title)
  {
  }

  /** A single request, settled with nothing overlapping it, ends in the
      panel its completion calls for: cards or the empty message on
      success, the failure message when it is non-empty, and -- since an
      empty string is falsy -- a loading panel that never ends when the
      failure message is empty. */
  lemma SingleRequestOutcome(s: PageState, title: string, c: Completion)
    ensures var p := HandleBookSelect(s, title);
            var v := Render(Settled(p, title, c));
            && (c.Ok? && |c.recommendations.GetOr([])| > 0 ==>
                  v == CardsPanel(title, Cards(c.recommendations.value)))
            && (c.Ok? && |c.recommendations.GetOr([])| == 0 ==> v == EmptyPanel(title))
            && (!c.Ok? && FailureMessage(c).value != "" ==>
                  v == ErrorPanel(title, FailureMessage(c).value))
            && (!c.Ok? && FailureMessage(c).value == "" ==> v == LoadingPanel(title))
            && (!c.Ok? ==> Settled(p, title, c).prediction.None?)
  {
  }

  /** A non-OK response whose body parses always yields a non-empty
      message, so the error panel is shown. */
  lemma ParsedFailureIsVisible(s: PageState, title: string, status: nat, detail: Option<string>)
    ensures Render(Settled(HandleBookSelect(s, title), title, NotOk(status, Parsed(detail))))
         == ErrorPanel(title, if Truthy(detail) then detail.value else StatusMessage(status))
  {
  }

  /** With no request tag, which request settles makes no difference to
      what the page keeps: the selection, result and error after a
      settlement depend only on the completion. */
  lemma SettlementIgnoresRequest(s: PageState, a: string, b: string, c: Completion)
    ensures Settled(s, a, c).selected == Settled(s, b, c).selected
    ensures Settled(s, a, c).prediction == Settled(s, b, c).prediction
    ensures Settled(s, a, c).error == Settled(s, b, c).error
  {
  }

  /** The last successful response to arrive decides the list, whatever
      order the selections were made in. */
  lemma LastSuccessWins(s: PageState, a: string, b: string, ra: seq<BookInfo>, rb: seq<BookInfo>)
    requires a in s.pending && b in s.pending - multiset{a}
    ensures Settled(Settled(s, a, Ok(Some(ra))), b, Ok(Some(rb))).prediction == Some(rb)
    ensures Settled(Settled(s, b, Ok(Some(rb))), a, Ok(Some(ra))).prediction == Some(ra)
  {
  }

  /** Selecting "A" then "B", with B's list arriving before A's failure,
      shows A's error under the heading for B. */
  lemma StaleFailureShownForNewerBook(ra: seq<BookInfo>)
    ensures var p := HandleBookSelect(HandleBookSelect(Initial, "A"), "B");
            var q := Settled(Settled(p, "B", Ok(Some(ra))), "A", NotOk(404, Parsed(Some("Book 'A' not found"))));
            && q.selected == Some("B")
            && Render(q) == ErrorPanel("B", "Book 'A' not found")
  {
  }
}
