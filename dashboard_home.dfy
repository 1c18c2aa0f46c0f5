/**
 * The dashboard's "recent documents": the store's documents copied, sorted
 * newest first in place, and cut to five; and the "Last Upload" value.
 */
module DashboardHome {
  import opened Common
  import opened Types
  import opened Sorting
  import MockApi

  const RecentCount: nat := 5

  /** `new Date(doc.createdAt).getTime()` */
  function CreatedKey(d: Document): int { d.createdAt.instant }

  /** The recent list: the newest-first order of the documents, cut to five. */
  function Recent(docs: seq<Document>): seq<Document> {
    SortDesc(docs, CreatedKey)[..Min(RecentCount, |docs|)]
  }

  /** Fetches a copy of the store, sorts the copy in place newest first and keeps the first five. */
  method RecentDocuments(store: MockApi.Store) returns (recent: seq<Document>)
    ensures recent == Recent(store.documents)
  {
    var docs := store.FetchAllDocuments();
    SortNewestFirst(docs, CreatedKey);
    recent := docs[..Min(RecentCount, docs.Length)];
  }

  /** Exactly min(5, n) entries, newest first, each one of the store's documents. */
  lemma RecentShape(docs: seq<Document>)
    ensures |Recent(docs)| == Min(RecentCount, |docs|)
    ensures SortedDesc(Recent(docs), CreatedKey)
    ensures forall d :: d in Recent(docs) ==> d in docs
  {
    var sorted := SortDesc(docs, CreatedKey);
    SortDescSorted(docs, CreatedKey);
    forall d | d in Recent(docs) ensures d in docs {
      assert d in sorted;
      assert d in multiset(sorted);
    }
  }

  /** A store without repeated documents gives a recent list without repeats. */
  lemma RecentNoDuplicates(docs: seq<Document>)
    requires NoDuplicates(docs)
    ensures NoDuplicates(Recent(docs))
  {
    SortDescNoDuplicates(docs, CreatedKey);
  }

  /** In particular the store's sequential ids rule out repeats. */
  lemma RecentOfStoreNoDuplicates(docs: seq<Document>)
    requires MockApi.IdsSequential(docs)
    ensures NoDuplicates(Recent(docs))
  {
    MockApi.SequentialIdsNoDuplicates(docs);
    RecentNoDuplicates(docs);
  }

  /** A document left out of the recent list is no newer than any document in it. */
  lemma RecentAreNewest(docs: seq<Document>, d: Document)
    requires d in docs && d !in Recent(docs)
    ensures forall r :: r in Recent(docs) ==> CreatedKey(r) >= CreatedKey(d)
  {
    var sorted := SortDesc(docs, CreatedKey);
    var n := Min(RecentCount, |docs|);
    SortDescSorted(docs, CreatedKey);
    assert d in multiset(sorted);
    var k :| 0 <= k < |sorted| && sorted[k] == d;
    forall r | r in Recent(docs) ensures CreatedKey(r) >= CreatedKey(d) {
      var i :| 0 <= i < n && sorted[i] == r;
      assert k >= n;
    }
  }

  /** "Last Upload": absent while loading or when there are no documents, else the first entry's timestamp. */
  function LastUpload(recent: Option<seq<Document>>): (r: Option<Timestamp>)
    ensures r.Some? <==> recent.Some? && recent.value != []
    ensures r.Some? ==> exists d :: d in recent.value && d.createdAt == r.value
  {
    if recent.None? || recent.value == [] then None else Some(recent.value[0].createdAt)
  }

  /** The value shown is present exactly when the store is non-empty, and it is the newest timestamp in the store. */
  lemma LastUploadIsNewest(docs: seq<Document>)
    ensures LastUpload(Some(Recent(docs))).Some? <==> docs != []
    ensures docs != [] ==> forall d :: d in docs ==>
      LastUpload(Some(Recent(docs))).value.instant >= d.createdAt.instant
    ensures docs != [] ==> exists d :: d in docs && d.createdAt == LastUpload(Some(Recent(docs))).value
  {
    RecentShape(docs);
    var sorted := SortDesc(docs, CreatedKey);
    if docs != [] {
      forall d | d in docs ensures sorted[0].createdAt.instant >= d.createdAt.instant {
        assert d in multiset(sorted);
        var k :| 0 <= k < |sorted| && sorted[k] == d;
        SortDescSorted(docs, CreatedKey);
      }
      assert sorted[0] in multiset(docs);
    }
  }
}
