/**
  The country picker of `app/sjh/page.tsx` (`CountrySelect`): a debounced,
  case-insensitive search over the catalog and a list that reveals its
  matches fifty at a time.
 */
module CountrySelect {
  import opened JsText
  import opened PhoneCountries
  import opened IncrementalReveal

  const COUNTRY_PAGE_SIZE: nat := 50

  /**
    The filter callback of `filteredCountries` for an already lowercased query:
    the lowercased name, the dial code as it is, or the lowercased code contains it.
   */
  predicate Matches(c: Country, query: string) {
    || Includes(ToLowerAscii(c.name), query)
    || Includes(c.dialCode, query)
    || Includes(ToLowerAscii(c.code), query)
  }

  /** `catalog.filter(c => Matches(c, query))`. */
  function FilterMatching(catalog: seq<Country>, query: string): (r: seq<Country>)
    ensures |r| <= |catalog|
    ensures forall c :: c in r <==> c in catalog && Matches(c, query)
    decreases |catalog|
  {
    if catalog == [] then []
    else (if Matches(catalog[0], query) then [catalog[0]] else []) + FilterMatching(catalog[1..], query)
  }

  /** `filteredCountries`: the whole catalog for an empty query, otherwise the matches of the lowercased query. */
  function FilteredCountries(catalog: seq<Country>, debouncedQuery: string): (r: seq<Country>)
    ensures debouncedQuery == [] ==> r == catalog
    ensures debouncedQuery != [] ==>
              forall c :: c in r <==> c in catalog && Matches(c, ToLowerAscii(debouncedQuery))
  {
    if debouncedQuery == [] then catalog else FilterMatching(catalog, ToLowerAscii(debouncedQuery))
  }

  /** `idx` lists, in increasing order, the positions of `ys` at which the elements of `xs` stand. */
  ghost predicate Embeds<T>(xs: seq<T>, ys: seq<T>, idx: seq<nat>) {
    && |idx| == |xs|
    && (forall i :: 0 <= i < |idx| ==> idx[i] < |ys| && xs[i] == ys[idx[i]])
    && (forall i, j :: 0 <= i < j < |idx| ==> idx[i] < idx[j])
  }

  /** `xs` is `ys` with some elements left out and the rest in their original order. */
  ghost predicate IsSubsequence<T>(xs: seq<T>, ys: seq<T>) {
    exists idx :: Embeds(xs, ys, idx)
  }

  /** The search ignores the case of the query: typing it in capitals lists the same countries. */
  lemma SearchIgnoresCase(catalog: seq<Country>, query: string)
    ensures FilteredCountries(catalog, query) == FilteredCountries(catalog, ToLowerAscii(query))
  {
    LowerTwice(query);
  }

  /** A catalog country whose name or code contains the typed text verbatim is always listed. */
  lemma SearchFindsTypedText(catalog: seq<Country>, c: Country, query: string)
    requires c in catalog && query != []
    requires Includes(c.name, query) || Includes(c.code, query)
    ensures c in FilteredCountries(catalog, query)
  {
    if Includes(c.name, query) {
      IncludesLower(c.name, query);
    } else {
      IncludesLower(c.code, query);
    }
  }

  /** The positions of `idx`, one element further on. */
  function Shift(idx: seq<nat>): (r: seq<nat>)
    ensures |r| == |idx| && forall i :: 0 <= i < |idx| ==> r[i] == idx[i] + 1
  {
    seq(|idx|, i requires 0 <= i < |idx| => idx[i] + 1)
  }

  /** Putting an element in front of `ys` moves every embedded position one place on. */
  lemma EmbedsSkip<T>(xs: seq<T>, y: T, ys: seq<T>, idx: seq<nat>)
    requires Embeds(xs, ys, idx)
    ensures Embeds(xs, [y] + ys, Shift(idx))
  {
    forall i | 0 <= i < |idx| ensures xs[i] == ([y] + ys)[Shift(idx)[i]] {
      assert ([y] + ys)[idx[i] + 1] == ys[idx[i]];
    }
  }

  /** A common first element embeds at position 0, ahead of the rest. */
  lemma EmbedsKeep<T>(x: T, xs: seq<T>, ys: seq<T>, idx: seq<nat>)
    requires Embeds(xs, ys, idx)
    ensures Embeds([x] + xs, [x] + ys, [0] + Shift(idx))
  {
    var full := [0] + Shift(idx);
    forall i | 1 <= i < |full| ensures ([x] + xs)[i] == ([x] + ys)[full[i]] {
      assert full[i] == idx[i - 1] + 1;
      assert ([x] + xs)[i] == xs[i - 1];
      assert ([x] + ys)[idx[i - 1] + 1] == ys[idx[i - 1]];
    }
  }

  /** The search keeps catalog order: the matches are a subsequence of the catalog. */
  lemma {:induction false} FilterIsSubsequence(catalog: seq<Country>, query: string)
    ensures IsSubsequence(FilterMatching(catalog, query), catalog)
    decreases |catalog|
  {
    if catalog == [] {
      assert Embeds([], catalog, []);
    } else {
      var head, tail := catalog[0], catalog[1..];
      var rest := FilterMatching(tail, query);
      FilterIsSubsequence(tail, query);
      var idx :| Embeds(rest, tail, idx);
      assert catalog == [head] + tail;
      if Matches(head, query) {
        assert FilterMatching(catalog, query) == [head] + rest;
        EmbedsKeep(head, rest, tail, idx);
      } else {
        assert FilterMatching(catalog, query) == rest;
        EmbedsSkip(rest, head, tail, idx);
      }
    }
  }

  /** Every country the search keeps is kept as often as the catalog lists it; the others not at all. */
  lemma {:induction false} FilterMultiplicity(catalog: seq<Country>, query: string, c: Country)
    ensures multiset(FilterMatching(catalog, query))[c] == if Matches(c, query) then multiset(catalog)[c] else 0
    decreases |catalog|
  {
    if catalog != [] {
      FilterMultiplicity(catalog[1..], query, c);
      assert catalog == [catalog[0]] + catalog[1..];
      assert multiset(catalog) == multiset([catalog[0]]) + multiset(catalog[1..]);
    }
  }

  /** The state of one `CountrySelect` instance. */
  class Picker {
    const catalog: seq<Country>
    var searchQuery: string     // the text field
    var debouncedQuery: string  // the query the list currently reflects
    var visibleCount: nat       // how many matches are rendered

    ghost predicate Valid()
      reads this
    {
      visibleCount >= COUNTRY_PAGE_SIZE
    }

    constructor (catalog: seq<Country>)
      ensures Valid()
      ensures this.catalog == catalog
      ensures searchQuery == [] && debouncedQuery == [] && visibleCount == COUNTRY_PAGE_SIZE
    {
      this.catalog := catalog;
      searchQuery := [];
      debouncedQuery := [];
      visibleCount := COUNTRY_PAGE_SIZE;
    }

    /** `filteredCountries` for the current debounced query. */
    function Filtered(): (r: seq<Country>)
      reads this
      ensures debouncedQuery == [] ==> r == catalog
      ensures forall c :: c in r ==> c in catalog
    {
      FilteredCountries(catalog, debouncedQuery)
    }

    /**
      `visibleCountries`: the first `visibleCount` matches, in catalog order;
      in a valid state at least the first page of them, or all when fewer.
     */
    function Visible(): (r: seq<Country>)
      reads this
      ensures |r| == if visibleCount < |Filtered()| then visibleCount else |Filtered()|
      ensures Valid() ==> |r| >= if |Filtered()| < COUNTRY_PAGE_SIZE then |Filtered()| else COUNTRY_PAGE_SIZE
      ensures r <= Filtered()
      ensures forall c :: c in r ==> c in catalog
    {
      Slice0(Filtered(), visibleCount)
    }

    /** The sentinel, and with it the spinner, is rendered while matches are hidden. */
    function HasMore(): (b: bool)
      reads this
      ensures b <==> |Visible()| < |Filtered()|
    {
      visibleCount < |Filtered()|
    }

    /** The "nothing found" message: a non-empty query that no country of the catalog matches. */
    function ShowsNoMatch(): (b: bool)
      reads this
      ensures b <==> debouncedQuery != [] && forall c :: c in catalog ==> !Matches(c, ToLowerAscii(debouncedQuery))
    {
      var r := Filtered();
      assert r != [] ==> r[0] in r;
      |r| == 0 && debouncedQuery != []
    }

    /** Typing into the search field (also the clear button, with the empty text). */
    method Type(text: string)
      modifies this`searchQuery
      ensures searchQuery == text
    {
      searchQuery := text;
    }

    /** The 200 ms debounce timer fires: the list follows the query and shows its first page again. */
    method DebounceElapsed()
      modifies this`debouncedQuery, this`visibleCount
      ensures Valid()
      ensures debouncedQuery == searchQuery
      ensures visibleCount == COUNTRY_PAGE_SIZE
    {
      debouncedQuery := searchQuery;
      visibleCount := COUNTRY_PAGE_SIZE;
    }

    /** The picker opens: the search text is cleared and the first page is shown. */
    method Open()
      modifies this`searchQuery, this`visibleCount
      ensures Valid()
      ensures searchQuery == [] && visibleCount == COUNTRY_PAGE_SIZE
    {
      searchQuery := [];
      visibleCount := COUNTRY_PAGE_SIZE;
    }

    /** The sentinel scrolls into view: one more page, if any match is still hidden. */
    method SentinelSeen()
      requires Valid()
      modifies this`visibleCount
      ensures Valid()
      ensures visibleCount == OnSentinel(old(visibleCount), |Filtered()|, COUNTRY_PAGE_SIZE)
      ensures old(visibleCount) < |Filtered()| ==> old(visibleCount) < visibleCount <= |Filtered()|
    {
      if visibleCount < |Filtered()| {
        visibleCount := Grow(visibleCount, |Filtered()|, COUNTRY_PAGE_SIZE);
      }
    }
  }
}
