/**
 * The records the dashboard passes around: a stored document, the summary
 * statistics over the store, and the fields a caller supplies to an upload.
 */
module Types {
  import opened Common

  /**
   * A `createdAt` value: the text that is shown and searched, and the instant
   * it denotes, which is what every newest-first ordering compares.
   */
  datatype Timestamp = Timestamp(text: string, instant: int)

  datatype Document = Document(
    id: string,
    document: string,
    category: string,
    tags: seq<string>,
    createdAt: Timestamp,
    originalDocument: string)

  datatype DocumentStats = DocumentStats(totalDocuments: nat, categories: seq<string>, tags: seq<string>)

  /** The upload argument: a document without `_id` and `createdAt`. */
  datatype NewDocument = NewDocument(document: string, category: string, tags: seq<string>, originalDocument: string)

  const TitleLength: nat := 60

  /** The title shown for a document in a list: its text cut to 60 characters, with "..." when something was cut. */
  function Title(d: Document): string { Truncate(d.document, TitleLength) }

  lemma TitleShape(d: Document)
    ensures |d.document| <= TitleLength ==> Title(d) == d.document
    ensures |d.document| > TitleLength ==> Title(d) == d.document[..TitleLength] + "..."
  {
  }

  /** `docs.map(doc => doc.category)` */
  function CategoriesOf(docs: seq<Document>): seq<string> {
    seq(|docs|, i requires 0 <= i < |docs| => docs[i].category)
  }

  /** `docs.flatMap(doc => doc.tags)` */
  function TagsOf(docs: seq<Document>): seq<string>
    decreases |docs|
  {
    if docs == [] then [] else TagsOf(docs[..|docs| - 1]) + docs[|docs| - 1].tags
  }

  /** The total number of tag occurrences over all documents. */
  function TagCount(docs: seq<Document>): nat
    decreases |docs|
  {
    if docs == [] then 0 else TagCount(docs[..|docs| - 1]) + |docs[|docs| - 1].tags|
  }

  /** Some document carries tag `t`. */
  ghost predicate TagOccurs(docs: seq<Document>, t: string) {
    exists i :: 0 <= i < |docs| && t in docs[i].tags
  }

  /** Some document has category `c`. */
  ghost predicate CategoryOccurs(docs: seq<Document>, c: string) {
    exists i :: 0 <= i < |docs| && docs[i].category == c
  }

  /** The flattened tag list holds every tag occurrence of every document, and no other. */
  lemma {:induction false} TagsOfMembership(docs: seq<Document>)
    ensures |TagsOf(docs)| == TagCount(docs)
    ensures forall t :: t in TagsOf(docs) <==> TagOccurs(docs, t)
    decreases |docs|
  {
    if docs != [] {
      var front := docs[..|docs| - 1];
      TagsOfMembership(front);
      forall t | TagOccurs(docs, t) ensures t in TagsOf(docs) {
        var i :| 0 <= i < |docs| && t in docs[i].tags;
        if i < |front| {
          assert t in front[i].tags;
        }
      }
      forall t | t in TagsOf(docs) ensures TagOccurs(docs, t) {
        if t in TagsOf(front) {
          var i :| 0 <= i < |front| && t in front[i].tags;
          assert docs[i] == front[i];
        }
      }
    }
  }

  /** `Array.from(new Set(docs.map(doc => doc.category)))` */
  function UniqueCategories(docs: seq<Document>): (r: seq<string>)
    ensures NoDuplicates(r)
    ensures forall c :: c in r <==> CategoryOccurs(docs, c)
  {
    var all := CategoriesOf(docs);
    assert forall c :: c in all <==> CategoryOccurs(docs, c) by {
      forall c | CategoryOccurs(docs, c) ensures c in all {
        var i :| 0 <= i < |docs| && docs[i].category == c;
        assert all[i] == c;
      }
    }
    Distinct(all)
  }

  /** `Array.from(new Set(docs.flatMap(doc => doc.tags)))` */
  function UniqueTags(docs: seq<Document>): (r: seq<string>)
    ensures NoDuplicates(r)
    ensures forall t :: t in r <==> TagOccurs(docs, t)
  {
    TagsOfMembership(docs);
    Distinct(TagsOf(docs))
  }

  /** The unique categories appear in the order in which the documents first mention them. */
  lemma UniqueCategoriesOrder(docs: seq<Document>, i: nat, j: nat)
    requires i < j < |UniqueCategories(docs)|
    ensures FirstIndex(CategoriesOf(docs), UniqueCategories(docs)[i])
          < FirstIndex(CategoriesOf(docs), UniqueCategories(docs)[j])
  {
    DistinctFirstAppearanceOrder(CategoriesOf(docs), i, j);
  }

  /** The unique tags appear in the order of their first occurrence in the flattened tag list. */
  lemma UniqueTagsOrder(docs: seq<Document>, i: nat, j: nat)
    requires i < j < |UniqueTags(docs)|
    ensures FirstIndex(TagsOf(docs), UniqueTags(docs)[i]) < FirstIndex(TagsOf(docs), UniqueTags(docs)[j])
  {
    DistinctFirstAppearanceOrder(TagsOf(docs), i, j);
  }
}
