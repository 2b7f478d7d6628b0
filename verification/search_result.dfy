/**
 * The global search result panel: which search terms start a search, the
 * panel and progress flags, and the copy of the results it displays.
 */
module SearchResult {
  import opened Wrappers
  import opened GoStrings

  /** A project, repository or chart record of a search result; records are copied by value. */
  datatype Entry = Entry(fields: map<string, string>)

  datatype SearchResults = SearchResults(project: seq<Entry>, repository: seq<Entry>, chart: seq<Entry>)

  /** A new SearchResults. */
  const EmptyResults: SearchResults := SearchResults([], [], [])

  /** The results shown for a search answer: charts only when Helm charts are enabled, nothing for no answer. */
  function Shown(src: Option<SearchResults>, withHelmChart: bool): SearchResults {
    if src.None? then EmptyResults
    else SearchResults(src.value.project, src.value.repository, if withHelmChart then src.value.chart else [])
  }

  /** Showing shown results again changes nothing, and without Helm charts no chart is ever shown. */
  lemma ShownStable(src: Option<SearchResults>, withHelmChart: bool)
    ensures Shown(Some(Shown(src, withHelmChart)), withHelmChart) == Shown(src, withHelmChart)
    ensures !withHelmChart ==> Shown(src, withHelmChart).chart == []
  {
  }

  /** One forEach / push loop: append a copy of every record of src to dst. */
  method PushAll(dst: seq<Entry>, src: seq<Entry>) returns (res: seq<Entry>)
    ensures res == dst + src
  {
    res := dst;
    var k := 0;
    while k < |src|
      invariant 0 <= k <= |src|
      invariant res == dst + src[..k]
    {
      assert src[..k + 1] == src[..k] + [src[k]];
      res := res + [src[k]];
      k := k + 1;
    }
    assert src[..k] == src;
  }

  /** clone: a fresh result holding copies of the source's projects, repositories and, with Helm charts, charts. */
  method Clone(src: Option<SearchResults>, withHelmChart: bool) returns (res: SearchResults)
    ensures res == Shown(src, withHelmChart)
    ensures src.Some? ==> |res.project| == |src.value.project| && |res.repository| == |src.value.repository|
  {
    res := EmptyResults;
    if src.Some? {
      var projects := PushAll(res.project, src.value.project);
      var repositories := PushAll(res.repository, src.value.repository);
      res := res.(project := projects, repository := repositories);
      if withHelmChart {
        var charts := PushAll(res.chart, src.value.chart);
        res := res.(chart := charts);
      }
    }
  }

  /** doSearch only searches for a term that is given and not blank. */
  predicate Searchable(term: Option<string>) {
    term.Some? && !JsBlank(term.value)
  }

  /** A searchable term is never empty, so the branch that clears results for an empty term is never taken. */
  lemma SearchableNotEmpty(term: Option<string>)
    requires Searchable(term)
    ensures term.value != ""
    ensures JsTrim(term.value) != ""
  {
  }

  /** SearchResultComponent's state. */
  class SearchResultComponent {
    var searchResults: SearchResults
    var originalCopy: Option<SearchResults>
    var currentTerm: string
    var stateIndicator: bool
    var onGoing: bool

    constructor()
      ensures searchResults == EmptyResults && originalCopy.None? && currentTerm == ""
      ensures !stateIndicator && !onGoing
    {
      searchResults := EmptyResults;
      originalCopy := None;
      currentTerm := "";
      stateIndicator := false;
      onGoing := false;
    }

    /**
     * doSearch: returns whether a search request is sent. A blank term and
     * any term while a search is in flight are ignored; otherwise the panel
     * opens, the term is recorded and the search is in progress.
     */
    method DoSearch(term: Option<string>) returns (requested: bool)
      modifies this
      ensures requested <==> Searchable(term) && !old(onGoing)
      ensures requested ==> stateIndicator && onGoing && currentTerm == term.value
      ensures !requested ==>
        stateIndicator == old(stateIndicator) && onGoing == old(onGoing) && currentTerm == old(currentTerm)
      ensures searchResults == old(searchResults) && originalCopy == old(originalCopy)
    {
      if term.None? || JsTrim(term.value) == "" {
        return false;
      }
      if onGoing {
        return false;
      }
      if !stateIndicator {
        Show();
      }
      currentTerm := term.value;
      onGoing := true;
      return true;
    }

    /** The search answered: the search is over; an answer is kept as sent and shown as a copy. */
    method SearchAnswered(answer: Result<Option<SearchResults>, ()>, withHelmChart: bool)
      modifies this
      ensures !onGoing
      ensures answer.Ok? ==> originalCopy == answer.value && searchResults == Shown(answer.value, withHelmChart)
      ensures answer.Err? ==> originalCopy == old(originalCopy) && searchResults == old(searchResults)
      ensures stateIndicator == old(stateIndicator) && currentTerm == old(currentTerm)
    {
      onGoing := false;
      if answer.Ok? {
        originalCopy := answer.value;
        searchResults := Clone(answer.value, withHelmChart);
      }
    }

    /** show: the panel opens. */
    method Show()
      modifies this
      ensures stateIndicator
      ensures onGoing == old(onGoing) && currentTerm == old(currentTerm)
      ensures searchResults == old(searchResults) && originalCopy == old(originalCopy)
    {
      stateIndicator := true;
    }

    /** close: the panel closes; nothing else changes. */
    method Close()
      modifies this
      ensures !stateIndicator
      ensures onGoing == old(onGoing) && currentTerm == old(currentTerm)
      ensures searchResults == old(searchResults) && originalCopy == old(originalCopy)
    {
      stateIndicator := false;
    }
  }
}
