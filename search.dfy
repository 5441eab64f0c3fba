/**
 The free-text search of the dashboard: an entry is kept when the search
 term is empty or when the text of one of its values, lowercased, contains
 the lowercased term. Filtering keeps the store's order.
 */
module SearchFilter {
  import opened Text
  import opened Entries
  import opened Filtering

  /** `value?.toString().toLowerCase().includes(needle)`: null never matches. */
  predicate ValueMatches(v: Value, needle: string) {
    ToText(v).Some? && Includes(Lower(ToText(v).value), needle)
  }

  /** `values.some(v => ValueMatches(v, needle))`. */
  predicate AnyMatches(values: seq<Value>, needle: string) {
    values != [] && (ValueMatches(values[0], needle) || AnyMatches(values[1..], needle))
  }

  lemma {:induction false} AnyMatchesIffSome(values: seq<Value>, needle: string)
    ensures AnyMatches(values, needle) <==> exists k :: 0 <= k < |values| && ValueMatches(values[k], needle)
    decreases |values|
  {
    if values != [] {
      AnyMatchesIffSome(values[1..], needle);
      if exists k :: 0 <= k < |values| && ValueMatches(values[k], needle) {
        var k :| 0 <= k < |values| && ValueMatches(values[k], needle);
        if k > 0 {
          assert values[1..][k - 1] == values[k];
        }
      }
      if exists j :: 0 <= j < |values| - 1 && ValueMatches(values[1..][j], needle) {
        var j :| 0 <= j < |values| - 1 && ValueMatches(values[1..][j], needle);
        assert values[j + 1] == values[1..][j];
      }
    }
  }

  /** Some value has a text whose lowercase form contains `needle`. */
  lemma AnyMatchesIffOccurs(vs: seq<Value>, needle: string)
    ensures AnyMatches(vs, needle) <==>
      exists k, i :: 0 <= k < |vs| && ToText(vs[k]).Some? && OccursAt(Lower(ToText(vs[k]).value), needle, i)
  {
    AnyMatchesIffSome(vs, needle);
    if AnyMatches(vs, needle) {
      var k :| 0 <= k < |vs| && ValueMatches(vs[k], needle);
      IncludesIffOccurs(Lower(ToText(vs[k]).value), needle);
      var i :| OccursAt(Lower(ToText(vs[k]).value), needle, i);
      assert 0 <= k < |vs| && ToText(vs[k]).Some? && OccursAt(Lower(ToText(vs[k]).value), needle, i);
    }
    if exists k, i :: 0 <= k < |vs| && ToText(vs[k]).Some? && OccursAt(Lower(ToText(vs[k]).value), needle, i) {
      var k, i :| 0 <= k < |vs| && ToText(vs[k]).Some? && OccursAt(Lower(ToText(vs[k]).value), needle, i);
      IncludesIffOccurs(Lower(ToText(vs[k]).value), needle);
      assert 0 <= k < |vs| && ValueMatches(vs[k], needle);
    }
  }

  /** The test `applyFiltersAndSearch` applies to one entry. */
  predicate Matches(e: Entry, term: string) {
    term == "" || AnyMatches(Values(e), Lower(term))
  }

  /**
   A non-empty term matches an entry exactly when some non-null value of it
   has a text whose lowercase form contains the lowercase term.
   */
  lemma MatchesIff(e: Entry, term: string)
    requires term != ""
    ensures Matches(e, term) <==>
      exists k, i :: 0 <= k < |Values(e)| && ToText(Values(e)[k]).Some?
                     && OccursAt(Lower(ToText(Values(e)[k]).value), Lower(term), i)
  {
    assert Matches(e, term) == AnyMatches(Values(e), Lower(term));
    AnyMatchesIffOccurs(Values(e), Lower(term));
  }

  /** `waitlistData.filter(matchesSearch)`. */
  function Search(store: seq<Entry>, term: string): (r: seq<Entry>)
    ensures |r| <= |store|
    ensures forall e :: e in r ==> e in store && Matches(e, term)
    ensures forall e :: e in store && Matches(e, term) ==> e in r
    ensures term == "" ==> r == store
  {
    var keep := e => Matches(e, term);
    if term == "" then FilterAll(store, keep); Filter(store, keep) else Filter(store, keep)
  }

  /** The result keeps the store's order. */
  lemma SearchIsSubsequence(store: seq<Entry>, term: string)
    ensures Subsequence(Search(store, term), store)
  {
    FilterIsSubsequence(store, e => Matches(e, term));
  }

  /** Searching a concatenation searches each part. */
  lemma SearchConcat(a: seq<Entry>, b: seq<Entry>, term: string)
    ensures Search(a + b, term) == Search(a, term) + Search(b, term)
  {
    FilterConcat(a, b, e => Matches(e, term));
  }

  /** A single entry is kept exactly when it matches. */
  lemma SearchSingle(e: Entry, term: string)
    ensures Search([e], term) == (if Matches(e, term) then [e] else [])
  {
    assert [e][1..] == [];
  }

  /** The search ignores the case of the term. */
  lemma SearchCaseInsensitive(store: seq<Entry>, term: string)
    ensures Search(store, Lower(term)) == Search(store, term)
  {
    assert Lower(Lower(term)) == Lower(term);
    assert (Lower(term) == "") == (term == "");
    FilterSame(store, e => Matches(e, Lower(term)), e => Matches(e, term));
  }
}
