/**
 * The "Query Documents" page: criteria are edited freely, frozen into a
 * snapshot by the search button, and the snapshot is handed to the store
 * query, with an empty category or tag list passed as absent.
 */
module QueryDocuments {
  import opened Common
  import opened Types
  import MockApi

  /** The snapshot taken by the search button. */
  datatype SearchTerms = SearchTerms(query: string, category: string, tags: seq<string>)

  /** What the results query does for a snapshot: nothing, or one store query with these arguments. */
  datatype QueryCall =
    | NoCall
    | Call(query: string, category: Option<string>, tags: Option<seq<string>>)

  /** A search needs at least one criterion. */
  predicate HasCriterion(query: string, category: string, tags: seq<string>) {
    query != "" || category != "" || tags != []
  }

  /** `queryFn`: no snapshot means no query; an empty category or tag list is passed as absent. */
  function QueryCallFor(terms: Option<SearchTerms>): (c: QueryCall)
    ensures terms.None? <==> c.NoCall?
    ensures terms.Some? ==>
      c.query == terms.value.query &&
      (c.category.None? <==> terms.value.category == "") &&
      (c.category.Some? ==> c.category.value == terms.value.category) &&
      (c.tags.None? <==> terms.value.tags == []) &&
      (c.tags.Some? ==> c.tags.value == terms.value.tags)
  {
    match terms
    case None => NoCall
    case Some(t) =>
      Call(t.query,
        if t.category == "" then None else Some(t.category),
        if t.tags == [] then None else Some(t.tags))
  }

  /** The results shown for a snapshot, given the store's documents. */
  function Results(docs: seq<Document>, terms: Option<SearchTerms>): (r: seq<Document>)
    ensures terms.None? ==> r == []
    ensures terms.Some? ==> forall d :: d in r <==>
      d in docs && MockApi.QueryMatch(terms.value.query, Some(terms.value.category), Some(terms.value.tags), d)
    ensures IsSubsequence(r, docs)
  {
    match QueryCallFor(terms)
    case NoCall => []
    case Call(q, c, ts) =>
      FilterIsSubsequence(docs, d => MockApi.QueryMatch(q, c, ts, d));
      Filter(docs, d => MockApi.QueryMatch(q, c, ts, d))
  }

  /**
   * Passing an empty category or tag list as absent does not change the
   * outcome: the results are the documents matching the snapshot itself.
   */
  lemma ResultsMatchSnapshot(docs: seq<Document>, t: SearchTerms)
    ensures Results(docs, Some(t)) == Filter(docs, d => MockApi.QueryMatch(t.query, Some(t.category), Some(t.tags), d))
  {
    var c := QueryCallFor(Some(t));
    FilterSamePredicate(docs,
      d => MockApi.QueryMatch(c.query, c.category, c.tags, d),
      d => MockApi.QueryMatch(t.query, Some(t.category), Some(t.tags), d));
  }

  class Page {
    var query: string
    var selectedCategory: string
    var selectedTags: seq<string>
    var isSearching: bool
    var searchTerms: Option<SearchTerms>

    ghost predicate Valid()
      reads this
    {
      NoDuplicates(selectedTags) &&
      (searchTerms.Some? ==> HasCriterion(searchTerms.value.query, searchTerms.value.category, searchTerms.value.tags))
    }

    constructor ()
      ensures query == "" && selectedCategory == "" && selectedTags == []
      ensures !isSearching && searchTerms.None?
      ensures Valid()
    {
      query, selectedCategory, selectedTags := "", "", [];
      isSearching, searchTerms := false, None;
    }

    /** `handleTagToggle`: removes a selected tag, or appends an unselected one. */
    method HandleTagToggle(tag: string)
      requires Valid()
      modifies this
      ensures selectedTags == Toggle(old(selectedTags), tag)
      ensures query == old(query) && selectedCategory == old(selectedCategory)
      ensures isSearching == old(isSearching) && searchTerms == old(searchTerms)
      ensures Valid()
    {
      ToggleKeepsNoDuplicates(selectedTags, tag);
      selectedTags := Toggle(selectedTags, tag);
    }

    /**
     * `handleSearch`: with no criterion at all the search is refused and
     * nothing changes; otherwise the criteria are frozen into the snapshot.
     */
    method HandleSearch() returns (accepted: bool)
      requires Valid()
      modifies this
      ensures accepted <==> HasCriterion(old(query), old(selectedCategory), old(selectedTags))
      ensures !accepted ==> isSearching == old(isSearching) && searchTerms == old(searchTerms)
      ensures accepted ==> isSearching && searchTerms == Some(SearchTerms(query, selectedCategory, selectedTags))
      ensures query == old(query) && selectedCategory == old(selectedCategory) && selectedTags == old(selectedTags)
      ensures Valid()
    {
      if query == "" && selectedCategory == "" && selectedTags == [] {
        return false;
      }
      isSearching := true;
      searchTerms := Some(SearchTerms(query, selectedCategory, selectedTags));
      accepted := true;
    }

    /** `handleClear`: every criterion, the snapshot and the searching flag are reset. */
    method HandleClear()
      modifies this
      ensures query == "" && selectedCategory == "" && selectedTags == []
      ensures searchTerms.None? && !isSearching
      ensures Valid()
    {
      query, selectedCategory, selectedTags := "", "", [];
      searchTerms := None;
      isSearching := false;
    }

    /** Runs the results query for the current snapshot against the store. */
    method FetchResults(store: MockApi.Store) returns (results: seq<Document>)
      ensures results == Results(store.documents, searchTerms)
      ensures searchTerms.None? ==> results == []
      ensures searchTerms.Some? ==> forall d :: d in results <==>
        d in store.documents &&
        MockApi.QueryMatch(searchTerms.value.query, Some(searchTerms.value.category), Some(searchTerms.value.tags), d)
    {
      match QueryCallFor(searchTerms)
      case NoCall =>
        results := [];
      case Call(q, c, ts) =>
        results := store.QueryDocuments(q, c, ts);
        ResultsMatchSnapshot(store.documents, searchTerms.value);
    }
  }
}
