/**
 * The `Message` collection: an append-only log of records.
 */
module Store {
  import opened Records

  class MessageStore {
    /** Every saved record, oldest first. */
    var records: seq<Record>

    constructor Init()
      ensures records == []
    {
      records := [];
    }

    /** The effect of `newMessage.save()` at the store: the record is appended.
        Whether the caller then sees an exception is decided by the caller's
        `CallOutcome`. */
    method Save(r: Record)
      modifies this
      ensures records == old(records) + [r]
    {
      records := records + [r];
    }
  }
}
