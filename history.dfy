/** The `query_history` log: one entry per executed statement, appended in
    execution order and read back newest first. */
module History {
  import opened Wrappers

  /** One row of `query_history` as `get_query_history` returns it:
      (query_text, executed_at, success, error_message). */
  datatype HistoryEntry = HistoryEntry(queryText: string, executedAt: string, success: bool, errorMessage: Option<string>)

  /** `ORDER BY id DESC LIMIT limit` over a log kept in append order (the
      AUTOINCREMENT id grows with every append). As in SQLite, a negative
      limit means no limit at all. */
  function Newest(log: seq<HistoryEntry>, limit: int): (r: seq<HistoryEntry>)
    ensures |r| == if 0 <= limit < |log| then limit else |log|
    ensures forall i :: 0 <= i < |r| ==> r[i] == log[|log| - 1 - i]
    decreases |log|
  {
    if log == [] || limit == 0 then []
    else [log[|log| - 1]] + Newest(log[..|log| - 1], limit - 1)
  }

  /** Appending one entry puts it at the head of every non-empty read and
      shifts the rest down by one. */
  lemma NewestAfterAppend(log: seq<HistoryEntry>, e: HistoryEntry, limit: int)
    requires limit != 0
    ensures Newest(log + [e], limit) == [e] + Newest(log, limit - 1)
  {
    assert (log + [e])[..|log|] == log;
  }

  /** Any limited read is a prefix of the unlimited one: nothing is skipped,
      reordered or repeated. */
  lemma {:induction false} NewestIsPrefix(log: seq<HistoryEntry>, limit: int)
    ensures |Newest(log, limit)| <= |log|
    ensures Newest(log, limit) == Newest(log, -1)[..|Newest(log, limit)|]
    decreases |log|
  {
    if log != [] && limit != 0 {
      NewestIsPrefix(log[..|log| - 1], limit - 1);
    }
  }
}
