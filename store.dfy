/**
 * The stored message record and the local message store.
 *
 * The record keeps the five fields the rule engine reads as optional
 * values (a missing or NULL column is `None`), plus the identity, thread,
 * read flag and label ids the client fills in.
 */
module Store {

  import opened Wrappers

  /**
   * A point in time: whole seconds since the epoch, together with the
   * text Python's `str(datetime)` renders it as (the string predicates
   * compare against that text).
   */
  datatype Instant = Instant(seconds: int, text: string)

  datatype Email = Email(
    id: string,
    threadId: string,
    messageId: string,
    sender: Option<string>,
    recipient: Option<string>,
    subject: Option<string>,
    body: Option<string>,
    receivedAt: Option<Instant>,
    isRead: bool,
    labels: seq<string>)

  /** The `emails` table, keyed by message id. */
  class Database {
    var emails: map<string, Email>

    constructor (initial: map<string, Email>)
      ensures emails == initial
    {
      emails := initial;
    }
  }
}
