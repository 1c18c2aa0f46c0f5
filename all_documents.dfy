/**
 * The "All Documents" page: a client-side filter over the fetched documents
 * by text (processed text only), category and tags (every selected tag must
 * be present), and the handlers that change the filter state.
 */
module AllDocuments {
  import opened Common
  import opened Types
  import MockApi

  /** The value of the "All categories" entry of the category selector. */
  const AllCategoriesValue: string := "all"

  /** An empty search matches everything; otherwise the lower-cased processed text must contain it. */
  predicate MatchesQuery(query: string, d: Document) {
    query == "" || Includes(Lower(d.document), Lower(query))
  }

  /** The category test as the page performs it: "all" is compared like any other category. */
  predicate CategoryMatchesAsWritten(category: string, d: Document) {
    category == "" || d.category == category
  }

  /** The category test with "All categories" imposing no restriction, like the empty selection. */
  predicate CategoryMatches(category: string, d: Document) {
    category == "" || category == AllCategoriesValue || d.category == category
  }

  /** `selectedTags.length === 0 || selectedTags.every(tag => doc.tags.includes(tag))` */
  predicate TagsMatch(selected: seq<string>, d: Document) {
    selected == [] || forall t :: t in selected ==> t in d.tags
  }

  predicate PageMatch(query: string, category: string, selected: seq<string>, d: Document) {
    MatchesQuery(query, d) && CategoryMatches(category, d) && TagsMatch(selected, d)
  }

  predicate PageMatchAsWritten(query: string, category: string, selected: seq<string>, d: Document) {
    MatchesQuery(query, d) && CategoryMatchesAsWritten(category, d) && TagsMatch(selected, d)
  }

  /** `filteredDocuments`: the documents passing all three tests as the page performs them, in their order. */
  function FilteredAsWritten(docs: seq<Document>, query: string, category: string, selected: seq<string>): (r: seq<Document>)
    ensures forall d :: d in r <==> d in docs && PageMatchAsWritten(query, category, selected, d)
    ensures IsSubsequence(r, docs)
  {
    FilterIsSubsequence(docs, d => PageMatchAsWritten(query, category, selected, d));
    Filter(docs, d => PageMatchAsWritten(query, category, selected, d))
  }

  /** The corrected filter, in which "All categories" imposes no category restriction. */
  function Filtered(docs: seq<Document>, query: string, category: string, selected: seq<string>): (r: seq<Document>)
    ensures forall d :: d in r <==> d in docs && PageMatch(query, category, selected, d)
    ensures IsSubsequence(r, docs)
  {
    FilterIsSubsequence(docs, d => PageMatch(query, category, selected, d));
    Filter(docs, d => PageMatch(query, category, selected, d))
  }

  // ---------------------------------------------------------------------
  // Properties of the filter

  /** With no search text, no category and no tags every document is shown, in order. */
  lemma EmptyCriteriaShowAll(docs: seq<Document>)
    ensures FilteredAsWritten(docs, "", "", []) == docs
    ensures Filtered(docs, "", "", []) == docs
  {
    FilterKeepsAll(docs, d => PageMatchAsWritten("", "", [], d));
    FilterKeepsAll(docs, d => PageMatch("", "", [], d));
  }

  /**
   * As written, choosing "All categories" shows only documents whose
   * category is literally "all"; with no such document the page is empty.
   */
  lemma AllCategoriesHidesEverything(docs: seq<Document>, query: string, selected: seq<string>)
    requires forall i :: 0 <= i < |docs| ==> docs[i].category != AllCategoriesValue
    ensures FilteredAsWritten(docs, query, AllCategoriesValue, selected) == []
  {
    FilterKeepsNone(docs, d => PageMatchAsWritten(query, AllCategoriesValue, selected, d));
  }

  /** With the correction, "All categories" selects exactly what the empty selection selects. */
  lemma AllCategoriesMeansNoCategory(docs: seq<Document>, query: string, selected: seq<string>)
    ensures Filtered(docs, query, AllCategoriesValue, selected) == Filtered(docs, query, "", selected)
  {
    FilterSamePredicate(docs,
      d => PageMatch(query, AllCategoriesValue, selected, d),
      d => PageMatch(query, "", selected, d));
  }

  /** For every other category the corrected test is the test as written. */
  lemma CorrectionOnlyAffectsAll(docs: seq<Document>, query: string, category: string, selected: seq<string>)
    requires category != AllCategoriesValue
    ensures Filtered(docs, query, category, selected) == FilteredAsWritten(docs, query, category, selected)
  {
    FilterSamePredicate(docs,
      d => PageMatch(query, category, selected, d),
      d => PageMatchAsWritten(query, category, selected, d));
  }

  /**
   * The page is stricter than the store query given the same criteria: the
   * text must occur in the processed text, and every selected tag (not just
   * one) must be present.
   */
  lemma PageNarrowerThanQuery(query: string, category: string, selected: seq<string>, d: Document)
    requires PageMatchAsWritten(query, category, selected, d)
    ensures MockApi.QueryMatch(query, Some(category), Some(selected), d)
  {
    if selected != [] {
      assert selected[0] in selected;
    }
  }

  /** The converse fails: a document carrying only one of two selected tags passes the store query but not the page. */
  lemma AnyTagIsNotAllTags()
    ensures var d := Document("doc_1", "", "", ["a"], Timestamp("", 0), "");
      MockApi.QueryMatch("", None, Some(["a", "b"]), d) && !PageMatchAsWritten("", "", ["a", "b"], d)
  {
    var d := Document("doc_1", "", "", ["a"], Timestamp("", 0), "");
    assert "a" in ["a", "b"] && "a" in d.tags;
    assert "b" in ["a", "b"] && "b" !in d.tags;
  }

  // ---------------------------------------------------------------------
  // Page state

  class Page {
    /** The documents the page received. */
    const documents: seq<Document>
    var searchQuery: string
    var selectedCategory: string
    var selectedTags: seq<string>

    ghost predicate Valid()
      reads this
    {
      NoDuplicates(selectedTags)
    }

    constructor (docs: seq<Document>)
      ensures documents == docs
      ensures searchQuery == "" && selectedCategory == "" && selectedTags == []
      ensures Valid()
    {
      documents := docs;
      searchQuery, selectedCategory, selectedTags := "", "", [];
    }

    /** `categories`: each category of the received documents once, in order of first mention. */
    function Categories(): (r: seq<string>)
      ensures NoDuplicates(r)
      ensures forall c :: c in r <==> CategoryOccurs(documents, c)
    {
      UniqueCategories(documents)
    }

    /** `uniqueTags`: each tag of the received documents once, in order of first occurrence. */
    function Tags(): (r: seq<string>)
      ensures NoDuplicates(r)
      ensures forall t :: t in r <==> TagOccurs(documents, t)
    {
      UniqueTags(documents)
    }

    /** `filteredDocuments`: the documents shown for the current criteria. */
    function FilteredDocuments(): (r: seq<Document>)
      reads this
      ensures forall d :: d in r <==> d in documents && PageMatchAsWritten(searchQuery, selectedCategory, selectedTags, d)
      ensures IsSubsequence(r, documents)
    {
      FilteredAsWritten(documents, searchQuery, selectedCategory, selectedTags)
    }

    /** `handleTagToggle`: removes a selected tag, or appends an unselected one. */
    method HandleTagToggle(tag: string)
      requires Valid()
      modifies this
      ensures selectedTags == Toggle(old(selectedTags), tag)
      ensures searchQuery == old(searchQuery) && selectedCategory == old(selectedCategory)
      ensures Valid()
    {
      ToggleKeepsNoDuplicates(selectedTags, tag);
      selectedTags := Toggle(selectedTags, tag);
    }

    /** The category selector; the "All categories" entry passes `AllCategoriesValue`. */
    method SelectCategory(value: string)
      modifies this
      ensures selectedCategory == value
      ensures searchQuery == old(searchQuery) && selectedTags == old(selectedTags)
    {
      selectedCategory := value;
    }

    /** The search box. */
    method SetSearchQuery(value: string)
      modifies this
      ensures searchQuery == value
      ensures selectedCategory == old(selectedCategory) && selectedTags == old(selectedTags)
    {
      searchQuery := value;
    }

    /** The Clear button: every criterion is reset, so every document is shown again. */
    method Clear()
      modifies this
      ensures searchQuery == "" && selectedCategory == "" && selectedTags == []
      ensures FilteredDocuments() == documents
      ensures Valid()
    {
      searchQuery, selectedCategory, selectedTags := "", "", [];
      EmptyCriteriaShowAll(documents);
    }

    /** Clicking a tag on a card selects it if it is not selected yet, and never deselects. */
    method CardTagClick(tag: string)
      requires Valid()
      modifies this
      ensures tag in old(selectedTags) ==> selectedTags == old(selectedTags)
      ensures tag !in old(selectedTags) ==> selectedTags == old(selectedTags) + [tag]
      ensures tag in selectedTags
      ensures forall t :: t in old(selectedTags) ==> t in selectedTags
      ensures searchQuery == old(searchQuery) && selectedCategory == old(selectedCategory)
      ensures Valid()
    {
      if tag !in selectedTags {
        HandleTagToggle(tag);
      }
    }
  }
}
