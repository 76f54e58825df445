/** The suggestion filter of the search box (frontend/src/components/SearchBox.tsx,
    inside `fetchSuggestions`): keep the catalogue titles whose lower-cased
    form contains the lower-cased query, in catalogue order, and cap the
    list at eight. */
module CatalogFilter {
  import Text
  import Seqs

  /** Cap applied by `.slice(0, 8)`. */
  const MaxSuggestions: nat := 8

  /** `bookTitle.toLowerCase().includes(q.toLowerCase())`. */
  predicate IsMatch(title: string, q: string)
  {
    Text.Contains(Text.Lower(title), Text.Lower(q))
  }

  /** The filter callback for query `q`, as a value. */
  function Matcher(q: string): string -> bool
  {
    t => IsMatch(t, q)
  }

  /** Every catalogue title that matches `q`, in catalogue order. */
  function Matching(titles: seq<string>, q: string): (r: seq<string>)
    ensures forall i :: 0 <= i < |r| ==> IsMatch(r[i], q)
    ensures forall t :: multiset(r)[t] == if IsMatch(t, q) then multiset(titles)[t] else 0
  {
    Seqs.Filter(titles, Matcher(q))
  }

  /** The suggestion list a successful catalogue fetch produces for `q`. */
  function Suggest(titles: seq<string>, q: string): (r: seq<string>)
    ensures |r| <= MaxSuggestions
    ensures forall i :: 0 <= i < |r| ==> IsMatch(r[i], q)
    ensures Seqs.IsPrefix(r, Matching(titles, q))
    ensures |r| == if |Matching(titles, q)| < MaxSuggestions then |Matching(titles, q)| else MaxSuggestions
  {
    Seqs.TakeIsPrefix(Matching(titles, q), MaxSuggestions);
    Seqs.Take(Matching(titles, q), MaxSuggestions)
  }

  /** The filter as the component runs it: one pass over the catalogue
      collecting matches, then the cut to eight. */
  method FilterSuggestions(titles: seq<string>, q: string) returns (r: seq<string>)
    ensures r == Suggest(titles, q)
  {
    var kept: seq<string> := [];
    var i := 0;
    while i < |titles|
      invariant 0 <= i <= |titles|
      invariant kept == Matching(titles[..i], q)
    {
      MatchingStep(titles, i, q);
      kept := kept + (if IsMatch(titles[i], q) then [titles[i]] else []);
      i := i + 1;
    }
    assert titles[..i] == titles;
    r := Seqs.Take(kept, MaxSuggestions);
  }

  /** One more catalogue entry extends the matches by that entry or by
      nothing. */
  lemma MatchingStep(titles: seq<string>, i: nat, q: string)
    requires i < |titles|
    ensures Matching(titles[..i + 1], q)
         == Matching(titles[..i], q) + (if IsMatch(titles[i], q) then [titles[i]] else [])
  {
    assert titles[..i + 1] == titles[..i] + [titles[i]];
    Seqs.FilterAppend(titles[..i], [titles[i]], Matcher(q));
    Seqs.FilterSingleton(titles[i], Matcher(q));
  }

  /** Matching keeps catalogue order: the matches of a concatenation are the
      matches of each part, one after the other. */
  lemma MatchingKeepsOrder(a: seq<string>, b: seq<string>, q: string)
    ensures Matching(a + b, q) == Matching(a, q) + Matching(b, q)
  {
    Seqs.FilterAppend(a, b, Matcher(q));
  }

  /** When at most eight titles match, a title is suggested exactly when it
      is in the catalogue and matches, and it is suggested as many times as
      the catalogue lists it. */
  lemma SuggestExactWhenFewMatches(titles: seq<string>, q: string, t: string)
    requires |Matching(titles, q)| <= MaxSuggestions
    ensures t in Suggest(titles, q) <==> t in titles && IsMatch(t, q)
    ensures multiset(Suggest(titles, q))[t] == if IsMatch(t, q) then multiset(titles)[t] else 0
  {
    assert Suggest(titles, q) == Matching(titles, q);
  }

  /** When more than eight titles match, exactly eight are suggested. */
  lemma SuggestFullWhenManyMatches(titles: seq<string>, q: string)
    requires |Matching(titles, q)| > MaxSuggestions
    ensures |Suggest(titles, q)| == MaxSuggestions
  {
  }

  /** Every suggestion comes from the catalogue. */
  lemma SuggestFromCatalogue(titles: seq<string>, q: string)
    ensures forall i :: 0 <= i < |Suggest(titles, q)| ==> Suggest(titles, q)[i] in titles
  {
    Seqs.TakeFilterFromSource(titles, Matcher(q), MaxSuggestions);
  }

}
