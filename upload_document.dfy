/**
 * The "Upload Document" form: a duplicate-free tag list edited by the tag
 * input, the tag panel and the remove buttons; validation of the required
 * fields; the upload itself; and the reset after a successful upload.
 */
module UploadDocument {
  import opened Common
  import opened Types
  import MockApi

  datatype FormError = DocumentRequired | CategoryRequired

  /** The outcome of pressing submit: an error message, or the record handed to the upload. */
  datatype Submission = Rejected(error: FormError) | Accepted(data: NewDocument)

  /** `handleSubmit`'s checks, in order: the document first, then the category. */
  function Validate(document: string, category: string, tags: seq<string>): (r: Submission)
    ensures r.Rejected? <==> document == "" || category == ""
    ensures document == "" ==> r == Rejected(DocumentRequired)
    ensures document != "" && category == "" ==> r == Rejected(CategoryRequired)
    ensures r.Accepted? ==>
      r.data.document == document && r.data.category == category &&
      r.data.tags == tags && r.data.originalDocument == document
  {
    if document == "" then Rejected(DocumentRequired)
    else if category == "" then Rejected(CategoryRequired)
    else Accepted(NewDocument(document, category, tags, document))
  }

  /** The upload button is disabled while an upload is pending or a required field is empty. */
  predicate UploadDisabled(pending: bool, document: string, category: string) {
    pending || document == "" || category == ""
  }

  /** When no upload is pending, the button is enabled exactly when validation would accept. */
  lemma ButtonMatchesValidation(document: string, category: string, tags: seq<string>)
    ensures !UploadDisabled(false, document, category) <==> Validate(document, category, tags).Accepted?
    ensures UploadDisabled(true, document, category)
  {
  }

  class Form {
    var document: string
    var category: string
    var tagInput: string
    var tags: seq<string>

    ghost predicate Valid()
      reads this
    {
      NoDuplicates(tags)
    }

    constructor ()
      ensures document == "" && category == "" && tagInput == "" && tags == []
      ensures Valid()
    {
      document, category, tagInput, tags := "", "", "", [];
    }

    /** `handleTagAdd`: a non-empty, new tag is appended and the input cleared; otherwise nothing happens. */
    method HandleTagAdd()
      requires Valid()
      modifies this
      ensures old(tagInput) != "" && old(tagInput) !in old(tags) ==>
        tags == old(tags) + [old(tagInput)] && tagInput == ""
      ensures old(tagInput) == "" || old(tagInput) in old(tags) ==>
        tags == old(tags) && tagInput == old(tagInput)
      ensures document == old(document) && category == old(category)
      ensures Valid()
    {
      if tagInput != "" && tagInput !in tags {
        tags := tags + [tagInput];
        tagInput := "";
      }
    }

    /** A click on a tag of the statistics panel appends it unless it is already chosen. */
    method StatsTagClick(tag: string)
      requires Valid()
      modifies this
      ensures tag !in old(tags) ==> tags == old(tags) + [tag]
      ensures tag in old(tags) ==> tags == old(tags)
      ensures document == old(document) && category == old(category) && tagInput == old(tagInput)
      ensures Valid()
    {
      if tag !in tags {
        tags := tags + [tag];
      }
    }

    /** A click on a category of the statistics panel chooses it. */
    method StatsCategoryClick(cat: string)
      modifies this
      ensures category == cat
      ensures document == old(document) && tags == old(tags) && tagInput == old(tagInput)
    {
      category := cat;
    }

    /** `handleTagRemove`: the tag is dropped and the remaining tags keep their order. */
    method HandleTagRemove(tag: string)
      requires Valid()
      modifies this
      ensures tags == Filter(old(tags), t => t != tag)
      ensures tag !in tags && forall t :: t != tag ==> (t in tags <==> t in old(tags))
      ensures IsSubsequence(tags, old(tags))
      ensures document == old(document) && category == old(category) && tagInput == old(tagInput)
      ensures Valid()
    {
      FilterNoDuplicates(tags, t => t != tag);
      FilterIsSubsequence(tags, t => t != tag);
      tags := Filter(tags, t => t != tag);
    }

    /** The success handler of the upload: the form is emptied. */
    method OnUploadSuccess()
      modifies this
      ensures document == "" && category == "" && tags == [] && tagInput == ""
      ensures Valid()
    {
      document, category, tags, tagInput := "", "", [], "";
    }

    /**
     * `handleSubmit`: a rejected submission changes nothing; an accepted one
     * appends the record to the store and then resets the form.
     */
    method HandleSubmit(store: MockApi.Store, now: Timestamp) returns (outcome: Submission)
      modifies this, store
      ensures outcome == Validate(old(document), old(category), old(tags))
      ensures outcome.Rejected? ==>
        store.documents == old(store.documents) &&
        document == old(document) && category == old(category) && tags == old(tags) && tagInput == old(tagInput)
      ensures outcome.Accepted? ==>
        store.documents == old(store.documents) + [Document(
          MockApi.DocId(|old(store.documents)| + 1), old(document), old(category), old(tags), now, old(document))] &&
        document == "" && category == "" && tags == [] && tagInput == ""
      ensures old(store.Valid()) ==> store.Valid()
    {
      outcome := Validate(document, category, tags);
      if outcome.Accepted? {
        var _ := store.UploadDocument(outcome.data, now);
        OnUploadSuccess();
      }
    }
  }
}
