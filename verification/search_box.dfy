/** The search box component (frontend/src/components/SearchBox.tsx) as an
    explicit state machine. React state setters become field updates; the
    300 ms debounce timer, the 200 ms blur-close timers and the catalogue
    fetches become pending work recorded in the state, and their firing or
    settling becomes an event. */
module SearchBox {
  import opened Maybe
  import CatalogFilter
  import Text

  /** The component's state. `debounce` is the single pending debounce
      timer with the text it captured; `blurTimers` counts pending
      blur-close timers (they are never cancelled); `inFlight` holds the
      query of every catalogue fetch that has started and not settled. */
  datatype SearchState = SearchState(
    query: string,
    suggestions: seq<string>,
    loading: bool,
    showDropdown: bool,
    focused: bool,
    debounce: Option<string>,
    blurTimers: nat,
    inFlight: multiset<string>)

  /** How a catalogue fetch ends: the parsed title list, or any failure
      (network error, non-OK status, unparsable body). */
  datatype CatalogResponse = CatalogOk(titles: seq<string>) | CatalogFailed

  datatype Event =
    | Keystroke(text: string)
    | DebounceFires
    | FetchSettles(q: string, response: CatalogResponse)
    | Select(title: string)
    | Clear
    | Focus
    | Blur
    | BlurCloseFires

  /** A step's new state and the book handed to `onBookSelect`, if any. */
  datatype Transition = Transition(next: SearchState, selected: Option<string>)

  /** The state the component mounts with. */
  const Initial := SearchState("", [], false, false, false, None, 0, multiset{})

  /** The dropdown is rendered only while open and non-empty. */
  predicate DropdownVisible(s: SearchState)
  {
    s.showDropdown && |s.suggestions| > 0
  }

  /** The clear button is rendered only for a non-empty query while no
      fetch is loading. */
  predicate ClearButtonShown(s: SearchState)
  {
    s.query != "" && !s.loading
  }

  /** `handleChange`: the text and the open dropdown are set at once; the
      pending timer is replaced by one carrying the new text. The length
      guard is not consulted here. */
  function HandleChange(s: SearchState, val: string): (r: SearchState)
    ensures r.query == val && r.showDropdown
    ensures r.debounce == Some(val)
    ensures r.suggestions == s.suggestions && r.loading == s.loading
    ensures r.inFlight == s.inFlight && r.focused == s.focused && r.blurTimers == s.blurTimers
  {
    s.(query := val, showDropdown := true, debounce := Some(val))
  }

  /** The debounce callback: a captured text longer than one character
      starts a fetch (which raises `loading`), any other text empties the
      suggestions and starts nothing. */
  function DebounceCallback(s: SearchState): (r: SearchState)
    requires s.debounce.Some?
    ensures r.debounce == None
    ensures r.query == s.query && r.showDropdown == s.showDropdown
    ensures r.focused == s.focused && r.blurTimers == s.blurTimers
    ensures |s.debounce.value| > 1 ==>
              r.loading && r.inFlight == s.inFlight + multiset{s.debounce.value}
              && r.suggestions == s.suggestions
    ensures |s.debounce.value| <= 1 ==>
              r.suggestions == [] && r.inFlight == s.inFlight && r.loading == s.loading
  {
    var val := s.debounce.value;
    var s' := s.(debounce := None);
    if |val| > 1 then StartFetch(s', val) else s'.(suggestions := [])
  }

  /** The synchronous part of `fetchSuggestions(q)`: raise `loading` and
      put the request in flight. */
  function StartFetch(s: SearchState, q: string): (r: SearchState)
    ensures r.loading && r.inFlight == s.inFlight + multiset{q}
    ensures r.suggestions == s.suggestions && r.query == s.query && r.debounce == s.debounce
    ensures r.showDropdown == s.showDropdown && r.focused == s.focused && r.blurTimers == s.blurTimers
  {
    s.(loading := true, inFlight := s.inFlight + multiset{q})
  }

  /** The asynchronous part of `fetchSuggestions(q)`: whatever the outcome,
      `loading` drops; a success replaces the suggestions with the filtered
      catalogue for the query the fetch was started with, a failure empties
      them. */
  function FetchSettled(s: SearchState, q: string, response: CatalogResponse): (r: SearchState)
    ensures !r.loading
    ensures r.inFlight == s.inFlight - multiset{q}
    ensures response.CatalogFailed? ==> r.suggestions == []
    ensures response.CatalogOk? ==> r.suggestions == CatalogFilter.Suggest(response.titles, q)
    ensures |r.suggestions| <= CatalogFilter.MaxSuggestions
    ensures r.query == s.query && r.showDropdown == s.showDropdown && r.debounce == s.debounce
    ensures r.focused == s.focused && r.blurTimers == s.blurTimers
  {
    var shown := match response
      case CatalogOk(titles) => CatalogFilter.Suggest(titles, q)
      case CatalogFailed => [];
    s.(suggestions := shown, loading := false, inFlight := s.inFlight - multiset{q})
  }

  /** `handleSelect`: the chosen title becomes the text, the dropdown
      closes, and the book is handed to the parent exactly once. */
  function HandleSelect(s: SearchState, title: string): (r: Transition)
    ensures r.selected == Some(title)
    ensures r.next.query == title && !r.next.showDropdown
    ensures r.next.suggestions == s.suggestions && r.next.loading == s.loading
    ensures r.next.debounce == s.debounce && r.next.inFlight == s.inFlight
    ensures r.next.focused == s.focused && r.next.blurTimers == s.blurTimers
  {
    Transition(s.(query := title, showDropdown := false), Some(title))
  }

  /** `clearSearch`: text, suggestions and dropdown are reset; loading and
      every pending timer and fetch are left alone. */
  function ClearSearch(s: SearchState): (r: SearchState)
    ensures r.query == "" && r.suggestions == [] && !r.showDropdown
    ensures !DropdownVisible(r) && !ClearButtonShown(r)
    ensures r.loading == s.loading && r.debounce == s.debounce && r.inFlight == s.inFlight
    ensures r.focused == s.focused && r.blurTimers == s.blurTimers
  {
    s.(query := "", suggestions := [], showDropdown := false)
  }

  /** `onFocus`: focused, and the dropdown flag is raised. */
  function HandleFocus(s: SearchState): (r: SearchState)
    ensures r.focused && r.showDropdown
    ensures r.query == s.query && r.suggestions == s.suggestions && r.loading == s.loading
    ensures r.debounce == s.debounce && r.inFlight == s.inFlight && r.blurTimers == s.blurTimers
  {
    s.(focused := true, showDropdown := true)
  }

  /** `onBlur`: unfocused at once, but the dropdown only closes when the
      blur-close timer fires. */
  function HandleBlur(s: SearchState): (r: SearchState)
    ensures !r.focused && r.blurTimers == s.blurTimers + 1
    ensures r.showDropdown == s.showDropdown
    ensures r.query == s.query && r.suggestions == s.suggestions && r.loading == s.loading
    ensures r.debounce == s.debounce && r.inFlight == s.inFlight
  {
    s.(focused := false, blurTimers := s.blurTimers + 1)
  }

  /** A blur-close timer fires and closes the dropdown. */
  function BlurClose(s: SearchState): (r: SearchState)
    requires s.blurTimers > 0
    ensures !r.showDropdown && r.blurTimers + 1 == s.blurTimers
    ensures r.focused == s.focused
    ensures r.query == s.query && r.suggestions == s.suggestions && r.loading == s.loading
    ensures r.debounce == s.debounce && r.inFlight == s.inFlight
  {
    s.(showDropdown := false, blurTimers := s.blurTimers - 1)
  }

  /** Whether the event can happen in state `s`: a timer fires only while
      pending, a fetch settles only while in flight, a suggestion can only
      be clicked while the dropdown shows it, and the clear button can only
      be clicked while it is rendered. */
  predicate Enabled(s: SearchState, e: Event)
  {
    match e
    case DebounceFires => s.debounce.Some?
    case FetchSettles(q, _) => q in s.inFlight
    case Select(t) => DropdownVisible(s) && t in s.suggestions
    case Clear => ClearButtonShown(s)
    case BlurCloseFires => s.blurTimers > 0
    case _ => true
  }

  /** One event applied to the state: a dispatcher to the handlers above,
      whose contracts describe each event's effect. Its own contract says
      only that `Select`, and nothing else, hands a book on; lemmas about
      runs see the dispatch by unfolding this body. */
  function Step(s: SearchState, e: Event): (r: Transition)
    requires Enabled(s, e)
    ensures r.selected.Some? <==> e.Select?
    ensures e.Select? ==> r.selected == Some(e.title)
  {
    match e
    case Keystroke(text) => Transition(HandleChange(s, text), None)
    case DebounceFires => Transition(DebounceCallback(s), None)
    case FetchSettles(q, response) => Transition(FetchSettled(s, q, response), None)
    case Select(t) => HandleSelect(s, t)
    case Clear => Transition(ClearSearch(s), None)
    case Focus => Transition(HandleFocus(s), None)
    case Blur => Transition(HandleBlur(s), None)
    case BlurCloseFires => Transition(BlurClose(s), None)
  }

  /** On mount only typing, focusing and blurring can happen: no timer is
      pending, no fetch is in flight, no suggestion is shown and the clear
      button is not rendered. */
  lemma InitialEnabled()
    ensures forall e :: Enabled(Initial, e) <==> e.Keystroke? || e.Focus? || e.Blur?
  {
  }

  /** The dropdown is rendered only while its flag is up and there is a
      suggestion: focusing shows it exactly when suggestions exist, and then
      every suggestion can be clicked. */
  lemma DropdownNeedsSuggestions(s: SearchState, t: string)
    ensures DropdownVisible(HandleFocus(s)) <==> |s.suggestions| > 0
    ensures Enabled(HandleFocus(s), Select(t)) <==> t in s.suggestions
    ensures !DropdownVisible(s.(suggestions := []))
  {
  }

  /** The clear button appears for a non-empty text only while nothing is
      loading: after a keystroke it is shown exactly when the new text is
      non-empty and no fetch is loading, and a fetch starting hides it. */
  lemma ClearButtonRule(s: SearchState, val: string, q: string)
    ensures ClearButtonShown(HandleChange(s, val)) <==> val != "" && !s.loading
    ensures !ClearButtonShown(StartFetch(s, q))
  {
  }

  /** Every event of `es` is enabled when it arrives. */
  predicate ValidRun(s: SearchState, es: seq<Event>)
    decreases |es|
  {
    es == [] || (Enabled(s, es[0]) && ValidRun(Step(s, es[0]).next, es[1..]))
  }

  /** The state after the events of `es`, in arrival order. */
  function Run(s: SearchState, es: seq<Event>): SearchState
    requires ValidRun(s, es)
    decreases |es|
  {
    if es == [] then s else Run(Step(s, es[0]).next, es[1..])
  }

  /** What holds in every reachable state: at most eight suggestions, the
      spinner only while some fetch is in flight, and every fetch in flight
      was started for a text longer than one character. */
  predicate Inv(s: SearchState)
  {
    && |s.suggestions| <= CatalogFilter.MaxSuggestions
    && (s.loading ==> |s.inFlight| > 0)
    && (forall q :: q in s.inFlight ==> |q| > 1)
  }

  lemma InitialInv()
    ensures Inv(Initial)
  {
  }

  /** Every enabled event keeps the invariant. */
  lemma StepPreservesInv(s: SearchState, e: Event)
    requires Inv(s) && Enabled(s, e)
    ensures Inv(Step(s, e).next)
  {
  }

  /** Every run from a state satisfying the invariant keeps it. */
  lemma {:induction false} RunPreservesInv(s: SearchState, es: seq<Event>)
    requires Inv(s) && ValidRun(s, es)
    ensures Inv(Run(s, es))
    decreases |es|
  {
    if es != [] {
      StepPreservesInv(s, es[0]);
      RunPreservesInv(Step(s, es[0]).next, es[1..]);
    }
  }

  predicate AllKeystrokes(es: seq<Event>)
  {
    forall i :: 0 <= i < |es| ==> es[i].Keystroke?
  }

  /** A burst of keystrokes with no timer firing in between leaves one
      pending timer, carrying the last text, and starts no fetch. */
  lemma {:induction false} KeystrokeBurst(s: SearchState, es: seq<Event>)
    requires |es| > 0 && AllKeystrokes(es)
    ensures ValidRun(s, es)
    ensures Run(s, es).debounce == Some(es[|es| - 1].text)
    ensures Run(s, es).query == es[|es| - 1].text && Run(s, es).showDropdown
    ensures Run(s, es).inFlight == s.inFlight && Run(s, es).loading == s.loading
    ensures Run(s, es).suggestions == s.suggestions
    decreases |es|
  {
    var s' := Step(s, es[0]).next;
    if |es| > 1 {
      KeystrokeBurst(s', es[1..]);
      assert es[1..][|es[1..]| - 1] == es[|es| - 1];
    }
  }

  /** The length guard runs when the timer fires: a short text clears the
      suggestions without a fetch, a longer text starts exactly one fetch
      for itself. */
  lemma LengthGuard(s: SearchState, text: string)
    ensures var t := Step(s, Keystroke(text)).next;
            var f := Step(t, DebounceFires).next;
            && t.suggestions == s.suggestions
            && (|text| <= 1 ==> f.suggestions == [] && f.inFlight == s.inFlight)
            && (|text| > 1 ==> f.loading && f.inFlight == s.inFlight + multiset{text})
  {
  }

  /** A blur does not hide the dropdown at once, so a click on a
      suggestion that was possible before the blur is still possible after
      it, until the blur-close timer fires. */
  lemma ClickWinsOverBlur(s: SearchState, t: string)
    requires Enabled(s, Select(t))
    ensures Enabled(Step(s, Blur).next, Select(t))
    ensures !DropdownVisible(Step(Step(s, Blur).next, BlurCloseFires).next)
  {
  }

  /** Clearing twice is clearing once. */
  lemma ClearIdempotent(s: SearchState)
    ensures ClearSearch(ClearSearch(s)) == ClearSearch(s)
  {
  }

  /** A fetch filters for the text it was started with, but nothing
      compares that text with the current query: typing "ab", then
      "abc", with the "abc" fetch settling first, leaves the suggestions
      for "ab" under the text "abc" -- and the spinner went off while the
      "ab" fetch was still in flight. */
  lemma StaleFetchOverwrites()
    ensures var cat := CatalogOk(["abd"]);
            var s2 := Step(Step(Initial, Keystroke("ab")).next, DebounceFires).next;
            var s4 := Step(Step(s2, Keystroke("abc")).next, DebounceFires).next;
            && Enabled(s4, FetchSettles("abc", cat))
            && var s5 := Step(s4, FetchSettles("abc", cat)).next;
            && !s5.loading && s5.inFlight == multiset{"ab"}
            && Enabled(s5, FetchSettles("ab", cat))
            && var s6 := Step(s5, FetchSettles("ab", cat)).next;
            && s6.query == "abc" && s6.suggestions == ["abd"]
            && !CatalogFilter.IsMatch("abd", "abc")
  {
    var cat := CatalogOk(["abd"]);
    var s2 := Step(Step(Initial, Keystroke("ab")).next, DebounceFires).next;
    var s4 := Step(Step(s2, Keystroke("abc")).next, DebounceFires).next;
    assert s4.inFlight == multiset{"ab", "abc"};
    var s5 := Step(s4, FetchSettles("abc", cat)).next;
    assert s5.inFlight == multiset{"ab"};
    AbdMatchesAbNotAbc();
    assert CatalogFilter.Matching(["abd"], "ab") == ["abd"];
  }

  lemma AbdMatchesAbNotAbc()
    ensures CatalogFilter.IsMatch("abd", "ab")
    ensures !CatalogFilter.IsMatch("abd", "abc")
  {
    assert Text.Lower("abd") == "abd";
    assert Text.Lower("ab") == "ab";
    assert Text.Lower("abc") == "abc";
    assert Text.OccursAt("abd", "ab", 0);
    assert !Text.OccursAt("abd", "abc", 0) by {
      assert "abd"[0..3] != "abc" by { assert "abd"[0..3][2] == 'd'; }
    }
  }

  /** Clearing does not cancel the pending debounce timer: a text typed
      just before a clear is still fetched for afterwards, with the box
      empty. */
  lemma ClearKeepsPendingTimer()
    ensures var es := [Keystroke("ab"), Clear, DebounceFires];
            && ValidRun(Initial, es)
            && Run(Initial, es).query == ""
            && Run(Initial, es).loading
            && Run(Initial, es).inFlight == multiset{"ab"}
  {
    var es := [Keystroke("ab"), Clear, DebounceFires];
    assert es[1..] == [Clear, DebounceFires];
    assert es[2..] == [DebounceFires];
  }
}
