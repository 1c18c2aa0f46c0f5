/**
 * The in-memory document store behind the dashboard: a list of documents
 * whose ids are `doc_1` .. `doc_n` in position order, with statistics,
 * lookup by id, upload, the three-criterion query and the derived log list.
 * Every operation is synchronous here; the artificial delays are not modelled.
 */
module MockApi {
  import opened Common
  import opened Types
  import opened Sorting

  // ---------------------------------------------------------------------
  // Identifiers

  /** `` `${prefix}${n}` `` */
  function Numbered(prefix: string, n: nat): string {
    prefix + NatToString(n)
  }

  /** `` `doc_${n}` `` */
  function DocId(n: nat): string { Numbered("doc_", n) }

  /** `` `log_${n}` `` */
  function LogId(n: nat): string { Numbered("log_", n) }

  /** Two numbered ids with the same prefix are equal exactly when their numbers are. */
  lemma NumberedInjective(prefix: string, m: nat, n: nat)
    ensures Numbered(prefix, m) == Numbered(prefix, n) <==> m == n
  {
    if Numbered(prefix, m) == Numbered(prefix, n) {
      assert Numbered(prefix, m)[|prefix|..] == NatToString(m);
      assert Numbered(prefix, n)[|prefix|..] == NatToString(n);
      NatToStringInjective(m, n);
    }
  }

  /** The store invariant: the document at position `i` has id `doc_{i+1}`. */
  ghost predicate IdsSequential(docs: seq<Document>) {
    forall i :: 0 <= i < |docs| ==> docs[i].id == DocId(i + 1)
  }

  /** Sequential ids are pairwise distinct. */
  lemma SequentialIdsUnique(docs: seq<Document>)
    requires IdsSequential(docs)
    ensures forall i, j :: 0 <= i < j < |docs| ==> docs[i].id != docs[j].id
  {
    forall i, j | 0 <= i < j < |docs| ensures docs[i].id != docs[j].id {
      NumberedInjective("doc_", i + 1, j + 1);
    }
  }

  /** A store with distinct ids holds no document twice. */
  lemma SequentialIdsNoDuplicates(docs: seq<Document>)
    requires IdsSequential(docs)
    ensures NoDuplicates(docs)
  {
    SequentialIdsUnique(docs);
  }

  // ---------------------------------------------------------------------
  // Lookup by id: `docs.find(doc => doc._id === id) || null`

  /** Position of the first document with the given id, if any. */
  function FindIndex(docs: seq<Document>, id: string): (r: Option<nat>)
    ensures r.None? <==> forall k :: 0 <= k < |docs| ==> docs[k].id != id
    ensures r.Some? ==>
      r.value < |docs| && docs[r.value].id == id &&
      forall k :: 0 <= k < r.value ==> docs[k].id != id
    decreases |docs|
  {
    if docs == [] then None
    else if docs[0].id == id then Some(0)
    else
      match FindIndex(docs[1..], id)
      case None => None
      case Some(k) => Some(k + 1)
  }

  /** `find(doc => doc._id === id) || null`: the first document with the id, or nothing. */
  function FindById(docs: seq<Document>, id: string): (r: Option<Document>)
    ensures r.None? <==> forall k :: 0 <= k < |docs| ==> docs[k].id != id
    ensures r.Some? ==> exists k :: (0 <= k < |docs| && docs[k] == r.value && r.value.id == id &&
      forall m :: 0 <= m < k ==> docs[m].id != id)
  {
    match FindIndex(docs, id)
    case None => None
    case Some(k) => assert docs[k] == docs[k]; Some(docs[k])
  }

  /** In a store with sequential ids, `doc_n` finds the `n`-th document, and exists exactly for `1 <= n <= |docs|`. */
  lemma FindSequentialId(docs: seq<Document>, n: nat)
    requires IdsSequential(docs)
    ensures 1 <= n <= |docs| ==> FindById(docs, DocId(n)) == Some(docs[n - 1])
    ensures FindById(docs, DocId(n)).Some? <==> 1 <= n <= |docs|
  {
    forall k | 0 <= k < |docs| ensures docs[k].id == DocId(n) <==> k == n - 1 {
      NumberedInjective("doc_", k + 1, n);
    }
  }

  // ---------------------------------------------------------------------
  // The query: text, category and tag criteria

  /** The lower-cased query occurs in the lower-cased processed or original text. */
  predicate MatchesText(query: string, d: Document) {
    Includes(Lower(d.document), Lower(query)) || Includes(Lower(d.originalDocument), Lower(query))
  }

  /** `tags.some(tag => doc.tags.includes(tag))` */
  predicate SharesTag(tags: seq<string>, d: Document) {
    exists t :: t in tags && t in d.tags
  }

  /** An empty query imposes nothing. */
  predicate TextOk(query: string, d: Document) {
    query == "" || MatchesText(query, d)
  }

  /** An absent or empty category imposes nothing. */
  predicate CategoryOk(category: Option<string>, d: Document) {
    category.None? || category.value == "" || d.category == category.value
  }

  /** An absent or empty tag list imposes nothing. */
  predicate TagsOk(tags: Option<seq<string>>, d: Document) {
    tags.None? || tags.value == [] || SharesTag(tags.value, d)
  }

  /** A document is in the query result when it passes all three criteria. */
  predicate QueryMatch(query: string, category: Option<string>, tags: Option<seq<string>>, d: Document) {
    TextOk(query, d) && CategoryOk(category, d) && TagsOk(tags, d)
  }

  /** An absent category and an empty one select the same documents, and likewise for tags. */
  lemma AbsentSameAsEmpty(query: string, category: Option<string>, tags: Option<seq<string>>, d: Document)
    ensures QueryMatch(query, None, tags, d) == QueryMatch(query, Some(""), tags, d)
    ensures QueryMatch(query, category, None, d) == QueryMatch(query, category, Some([]), d)
    ensures QueryMatch("", None, None, d)
  {
  }

  // ---------------------------------------------------------------------
  // Logs

  datatype LogEntry = LogEntry(id: string, documentId: string, action: string, timestamp: Timestamp)

  const UploadedAction: string := "Uploaded document"

  /** The log entry derived from the document at position `i`. */
  function LogFor(docs: seq<Document>, i: nat): LogEntry
    requires i < |docs|
  {
    LogEntry(LogId(i + 1), docs[i].id, UploadedAction, docs[i].createdAt)
  }

  /** `docs.map((doc, index) => ...)`, before sorting. */
  function LogsOf(docs: seq<Document>): seq<LogEntry> {
    seq(|docs|, i requires 0 <= i < |docs| => LogFor(docs, i))
  }

  /** `new Date(log.timestamp).getTime()` */
  function LogKey(e: LogEntry): int { e.timestamp.instant }

  /**
   * The log list as delivered: one entry per document, each carrying its
   * position-based id, the document's id, the fixed action and the document's
   * timestamp, newest first.
   */
  lemma LogsNewestFirst(docs: seq<Document>)
    ensures |SortDesc(LogsOf(docs), LogKey)| == |docs|
    ensures SortedDesc(SortDesc(LogsOf(docs), LogKey), LogKey)
    ensures forall i :: 0 <= i < |docs| ==> LogFor(docs, i) in SortDesc(LogsOf(docs), LogKey)
    ensures forall e :: e in SortDesc(LogsOf(docs), LogKey) ==>
      exists i :: 0 <= i < |docs| && e == LogFor(docs, i)
  {
    var logs := LogsOf(docs);
    var r := SortDesc(logs, LogKey);
    SortDescSorted(logs, LogKey);
    forall i | 0 <= i < |docs| ensures LogFor(docs, i) in r {
      assert logs[i] in multiset(logs);
    }
    forall e | e in r ensures exists i :: 0 <= i < |docs| && e == LogFor(docs, i) {
      assert e in multiset(r);
      var i :| 0 <= i < |logs| && logs[i] == e;
    }
  }

  /** Two different entries of the unsorted log list carry different ids. */
  lemma LogIdsDiffer(docs: seq<Document>, e1: LogEntry, e2: LogEntry)
    requires e1 in LogsOf(docs) && e2 in LogsOf(docs) && e1 != e2
    ensures e1.id != e2.id
  {
    var logs := LogsOf(docs);
    var a :| 0 <= a < |logs| && logs[a] == e1;
    var b :| 0 <= b < |logs| && logs[b] == e2;
    NumberedInjective("log_", a + 1, b + 1);
  }

  /** No two delivered log entries share an id. */
  lemma LogIdsUnique(docs: seq<Document>)
    ensures forall i, j :: 0 <= i < j < |SortDesc(LogsOf(docs), LogKey)| ==>
      SortDesc(LogsOf(docs), LogKey)[i].id != SortDesc(LogsOf(docs), LogKey)[j].id
  {
    var logs := LogsOf(docs);
    var r := SortDesc(logs, LogKey);
    forall i, j | 0 <= i < j < |logs| ensures logs[i] != logs[j] {
      NumberedInjective("log_", i + 1, j + 1);
    }
    SortDescNoDuplicates(logs, LogKey);
    forall i, j | 0 <= i < j < |r| ensures r[i].id != r[j].id {
      assert r[i] in multiset(r) && r[j] in multiset(r);
      LogIdsDiffer(docs, r[i], r[j]);
    }
  }

  /** Entries with equal timestamps keep the order of their documents in the store. */
  lemma LogsStable(docs: seq<Document>, k: int)
    ensures Filter(SortDesc(LogsOf(docs), LogKey), e => LogKey(e) == k) == Filter(LogsOf(docs), e => LogKey(e) == k)
  {
    SortDescStable(LogsOf(docs), LogKey, k, e => LogKey(e) == k);
  }

  // ---------------------------------------------------------------------
  // The store

  class Store {
    /** `mockDocuments` */
    var documents: seq<Document>

    ghost predicate Valid()
      reads this
    {
      IdsSequential(documents)
    }

    /** The generated initial store: any list whose ids are `doc_1` .. `doc_n`. */
    constructor (initial: seq<Document>)
      requires IdsSequential(initial)
      ensures Valid() && documents == initial
    {
      documents := initial;
    }

    /** `fetchDocumentStats` */
    function FetchDocumentStats(): (s: DocumentStats)
      reads this
      ensures s.totalDocuments == |documents|
      ensures NoDuplicates(s.categories) && NoDuplicates(s.tags)
      ensures forall c :: c in s.categories <==> CategoryOccurs(documents, c)
      ensures forall t :: t in s.tags <==> TagOccurs(documents, t)
    {
      DocumentStats(|documents|, UniqueCategories(documents), UniqueTags(documents))
    }

    /** `fetchAllDocuments`: a fresh array holding the store's documents in order. */
    method FetchAllDocuments() returns (a: array<Document>)
      ensures fresh(a) && a[..] == documents
    {
      a := new Document[|documents|](i requires 0 <= i < |documents| reads this => documents[i]);
    }

    /** `fetchDocumentById`: the first stored document with the id, or nothing when none has it. */
    function FetchDocumentById(id: string): (r: Option<Document>)
      reads this
      ensures r.None? <==> forall k :: 0 <= k < |documents| ==> documents[k].id != id
      ensures r.Some? ==> exists k :: (0 <= k < |documents| && documents[k] == r.value && r.value.id == id &&
        forall m :: 0 <= m < k ==> documents[m].id != id)
    {
      FindById(documents, id)
    }

    /** `uploadDocument`: appends the new record with the next sequential id. */
    method UploadDocument(data: NewDocument, createdAt: Timestamp) returns (d: Document)
      modifies this
      ensures d == Document(DocId(|old(documents)| + 1), data.document, data.category, data.tags, createdAt, data.originalDocument)
      ensures documents == old(documents) + [d]
      ensures old(Valid()) ==> Valid()
    {
      d := Document(DocId(|documents| + 1), data.document, data.category, data.tags, createdAt, data.originalDocument);
      documents := documents + [d];
    }

    /**
     * `queryDocuments`: a copy of the store narrowed by each criterion that
     * is present, in turn. The store itself is not changed.
     */
    method QueryDocuments(query: string, category: Option<string>, tags: Option<seq<string>>)
      returns (results: seq<Document>)
      ensures results == Filter(documents, d => QueryMatch(query, category, tags, d))
      ensures forall d :: d in results <==> d in documents && QueryMatch(query, category, tags, d)
      ensures IsSubsequence(results, documents)
    {
      ghost var p1 := (d: Document) => TextOk(query, d);
      ghost var p12 := (d: Document) => TextOk(query, d) && CategoryOk(category, d);
      ghost var p123 := (d: Document) => QueryMatch(query, category, tags, d);
      results := documents;
      if query != "" {
        results := Filter(results, d => MatchesText(query, d));
        FilterSamePredicate(documents, d => MatchesText(query, d), p1);
      } else {
        FilterKeepsAll(documents, p1);
      }
      if category.Some? && category.value != "" {
        var c := category.value;
        FilterTwice(documents, p1, (d: Document) => d.category == c, p12);
        results := Filter(results, (d: Document) => d.category == c);
      } else {
        FilterSamePredicate(documents, p1, p12);
      }
      if tags.Some? && tags.value != [] {
        var ts := tags.value;
        FilterTwice(documents, p12, d => SharesTag(ts, d), p123);
        results := Filter(results, d => SharesTag(ts, d));
      } else {
        FilterSamePredicate(documents, p12, p123);
      }
      FilterIsSubsequence(documents, p123);
    }

    /** `fetchLogs`: one entry per document, sorted in place newest first. */
    method FetchLogs() returns (logs: seq<LogEntry>)
      ensures logs == SortDesc(LogsOf(documents), LogKey)
    {
      var docs := documents;
      var a := new LogEntry[|docs|](i requires 0 <= i < |docs| => LogFor(docs, i));
      assert a[..] == LogsOf(docs);
      SortNewestFirst(a, LogKey);
      logs := a[..];
    }
  }

  /** Uploading to a valid store keeps it valid and makes the new record findable under its id. */
  lemma UploadThenFind(docs: seq<Document>, d: Document)
    requires IdsSequential(docs)
    requires d.id == DocId(|docs| + 1)
    ensures IdsSequential(docs + [d])
    ensures FindById(docs + [d], d.id) == Some(d)
    ensures forall n :: 1 <= n <= |docs| ==> FindById(docs + [d], DocId(n)) == FindById(docs, DocId(n))
  {
    var s := docs + [d];
    assert IdsSequential(s);
    FindSequentialId(s, |docs| + 1);
    forall n | 1 <= n <= |docs| ensures FindById(s, DocId(n)) == FindById(docs, DocId(n)) {
      FindSequentialId(s, n);
      FindSequentialId(docs, n);
    }
  }
}
