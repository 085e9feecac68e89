/** The search popup: what a search call does to the query, the result list
    and the busy flag, the reset when the popup closes, and when the "no
    products found" message shows. */
module SearchPopupView {
  import opened Wrappers
  import opened JsStrings
  import Cms

  /** The shortest trimmed query the popup fetches results for itself. */
  const MinQueryLength := 2

  /** A query long enough to fetch for, once surrounding white space is
      removed. */
  predicate LongEnough(query: string) {
    |Trim(query)| >= MinQueryLength
  }

  /** A query of white space alone is never long enough, however long it is. */
  lemma BlankQueryNotLongEnough(query: string)
    requires forall i :: 0 <= i < |query| ==> IsJsSpace(query[i])
    ensures !LongEnough(query)
  {
    TrimEmpty(query);
  }

  class SearchPopup {
    var searchResults: seq<Cms.Product>
    var currentQuery: string
    var isSearching: bool

    constructor()
      ensures searchResults == [] && currentQuery == "" && !isSearching
    {
      searchResults := [];
      currentQuery := "";
      isSearching := false;
    }

    /** `handleSearch(query, results?)`. Supplied results (even an empty
        array) are taken as they are; otherwise the empty query clears the
        list, and a long enough query is fetched, `None` standing for a
        fetch that throws. `fetched` says whether the fetch was made. The
        call runs to completion: nothing else happens while it waits. */
    method HandleSearch(query: string, results: Option<seq<Cms.Product>>,
                        fetch: string -> Option<seq<Cms.Product>>)
      returns (fetched: bool)
      modifies this
      ensures currentQuery == query
      ensures fetched <==> results.None? && query != "" && LongEnough(query)
      ensures results.Some? ==> searchResults == results.value
      ensures results.None? && query == "" ==> searchResults == []
      ensures fetched ==> searchResults == fetch(query).GetOr(old(searchResults)) && !isSearching
      ensures results.None? && query != "" && !LongEnough(query) ==> searchResults == old(searchResults)
      ensures !fetched ==> isSearching == old(isSearching)
    {
      currentQuery := query;
      fetched := false;
      if results.Some? {
        searchResults := results.value;
      } else if query == "" {
        searchResults := [];
      } else if |Trim(query)| >= MinQueryLength {
        isSearching := true;
        fetched := true;
        var response := fetch(query);
        if response.Some? {
          searchResults := response.value;
        }
        isSearching := false;
      }
    }

    /** The effect when `isOpen` turns false: query and results are reset. */
    method OnClosed()
      modifies this
      ensures currentQuery == "" && searchResults == []
      ensures isSearching == old(isSearching)
      ensures !NoProductsMessage()
    {
      currentQuery := "";
      searchResults := [];
    }

    /** "No products found" shows for a non-empty query with no results while
        no search is in progress. */
    predicate NoProductsMessage()
      reads this
    {
      currentQuery != "" && |searchResults| == 0 && !isSearching
    }

    /** The results list, with its count and "View all results" link. */
    predicate ResultsShown()
      reads this
    {
      |searchResults| > 0
    }
  }

  /** The message and the results list never show together, and with a
      non-empty query and no search in progress exactly one of them shows. */
  lemma MessageOrResults(p: SearchPopup)
    ensures !(p.NoProductsMessage() && p.ResultsShown())
    ensures p.currentQuery != "" && !p.isSearching ==> (p.NoProductsMessage() || p.ResultsShown())
  {
  }
}
