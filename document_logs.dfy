/**
 * The "Document Logs" page: a case-insensitive search over the delivered
 * log entries by document id, action or timestamp text.
 */
module DocumentLogs {
  import opened Common
  import opened Types
  import opened Sorting
  import opened MockApi

  /** The lower-cased term occurs in the lower-cased document id, action or timestamp. */
  predicate LogMatches(term: string, e: LogEntry) {
    Includes(Lower(e.documentId), Lower(term)) ||
    Includes(Lower(e.action), Lower(term)) ||
    Includes(Lower(e.timestamp.text), Lower(term))
  }

  /** `logs?.filter(...)`: absent while the logs are not loaded. */
  function FilterLogs(logs: Option<seq<LogEntry>>, term: string): (r: Option<seq<LogEntry>>)
    ensures r.None? <==> logs.None?
    ensures logs.Some? ==> IsSubsequence(r.value, logs.value)
    ensures logs.Some? ==> forall e :: e in r.value <==> e in logs.value && LogMatches(term, e)
  {
    match logs
    case None => None
    case Some(ls) =>
      FilterIsSubsequence(ls, e => LogMatches(term, e));
      Some(Filter(ls, e => LogMatches(term, e)))
  }

  /** An empty search term keeps every log, in order. */
  lemma EmptyTermKeepsAll(logs: seq<LogEntry>)
    ensures FilterLogs(Some(logs), "") == Some(logs)
  {
    forall i | 0 <= i < |logs| ensures LogMatches("", logs[i]) {
      IncludesEmpty(Lower(logs[i].documentId));
    }
    FilterKeepsAll(logs, e => LogMatches("", e));
  }

  /** Searching the result again with the same term changes nothing. */
  lemma FilterLogsIdempotent(logs: Option<seq<LogEntry>>, term: string)
    ensures FilterLogs(FilterLogs(logs, term), term) == FilterLogs(logs, term)
  {
    if logs.Some? {
      FilterIdempotent(logs.value, e => LogMatches(term, e));
    }
  }

  /**
   * Every delivered entry carries the action "Uploaded document", so a term
   * that occurs in it (such as "upload") keeps the whole list.
   */
  lemma ActionTermKeepsAll(docs: seq<Document>, term: string)
    requires Includes(Lower(UploadedAction), Lower(term))
    ensures var logs := SortDesc(LogsOf(docs), LogKey);
      FilterLogs(Some(logs), term) == Some(logs)
  {
    var logs := SortDesc(LogsOf(docs), LogKey);
    LogsNewestFirst(docs);
    forall k | 0 <= k < |logs| ensures LogMatches(term, logs[k]) {
      assert logs[k] in logs;
      var i :| 0 <= i < |docs| && logs[k] == LogFor(docs, i);
    }
    FilterKeepsAll(logs, e => LogMatches(term, e));
  }
}
