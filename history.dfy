/** The progress record kept in the history file. */
module History {
  import opened Wrappers

  /** `current_index` (the cursor) and `uploaded_ids`, in that record. */
  datatype Record = Record(cursor: int, uploadedIds: seq<string>)

  /** What a history file read back holds: either key may be missing. */
  datatype StoredHistory = StoredHistory(currentIndex: Option<int>, uploadedIds: Option<seq<string>>)

  /**
   * `load_uploaded_history` followed by the two `get` calls that open a pass:
   * no file means a fresh start at cursor 0 with no ids, and a missing key
   * takes the same default.
   */
  function LoadHistory(stored: Option<StoredHistory>): (r: Record)
    ensures stored.None? ==> r == Record(0, [])
    ensures stored.Some? ==> r.cursor == stored.value.currentIndex.GetOr(0)
    ensures stored.Some? ==> r.uploadedIds == stored.value.uploadedIds.GetOr([])
  {
    match stored
    case None => Record(0, [])
    case Some(h) => Record(h.currentIndex.GetOr(0), h.uploadedIds.GetOr([]))
  }

  /** No id occurs twice. */
  predicate NoDuplicates(ids: seq<string>) {
    forall i, j :: 0 <= i < j < |ids| ==> ids[i] != ids[j]
  }
}
