/**
 * The second generation of message handlers, `chat_backend/message/app.py`:
 * recent-history retrieval as before, and message sending with the body
 * checks moved into validation helpers and a fixed author.
 */
module MessageApp {
  import opened Wrappers
  import opened Common
  import opened MessageLog
  import opened Tables
  import ConnectApp

  /** The author every message is stored under until usernames are known. */
  const Author := "Mate"

  /**
   * The outcome of `validate_event`, `get_body` and `validate_body`: the
   * `ValueError` text of the first check that fails, or the content of a
   * well-formed body.
   */
  datatype Validation = Rejected(reason: string) | Accepted(content: string)

  /** The reply to a request that fails validation. */
  function ShapeErrorBody(reason: string): string
  {
    "Event or body are not in correct shape or format:(" + reason + ")"
  }

  /** `get_recent_messages`: the same steps as in `connect/app.py`. */
  method GetRecentMessages(db: Store, connectionId: Option<string>, reachable: string -> bool) returns (o: Outcome)
    requires db.Valid()
    modifies db
    ensures db.Valid()
    ensures db.connections == old(db.connections) && db.scanOrder == old(db.scanOrder) && db.messages == old(db.messages)
    ensures IsMissing(connectionId) ==> o == Returned(Response(500, IdNotSetBody)) && db.trace == old(db.trace)
    ensures !IsMissing(connectionId) && reachable(connectionId.value) ==>
      && o == Returned(Response(200, SentRecentBody(connectionId.value)))
      && db.trace == old(db.trace) + [Posted(connectionId.value, ConnectApp.RecentPayload(old(db.messages)))]
    ensures !IsMissing(connectionId) && !reachable(connectionId.value) ==> o == Raised && db.trace == old(db.trace)
  {
    o := ConnectApp.GetRecentMessages(db, connectionId, reachable);
  }

  /**
   * `send_message`: a request that fails validation gets 400 and changes
   * nothing; otherwise the message is stored under the author "Mate" with
   * the next index, and only then broadcast.
   */
  method SendMessage(db: Store, validation: Validation, timestamp: int, reachable: string -> bool)
    returns (o: Outcome)
    requires db.Valid()
    modifies db
    ensures db.Valid()
    ensures db.connections == old(db.connections) && db.scanOrder == old(db.scanOrder)
    ensures validation.Rejected? ==>
      o == Returned(Response(400, ShapeErrorBody(validation.reason))) && db.State() == old(db.State())
    ensures validation.Accepted? ==>
      var item := NewMessage(old(db.messages), timestamp, Author, validation.content);
      var ids := old(db.ScanConnections());
      var j := FirstUnreachable(ids, reachable);
      && item == MessageItem(GeneralRoom, NextIndex(old(db.messages)), timestamp, Author, validation.content)
      && db.messages == old(db.messages)[item.Key() := item.Attributes()]
      && db.trace == old(db.trace) + [MessagePut(item)] + Fanout(ids[..j], ConnectApp.MessagePayload(Author, validation.content))
      && o == (if j == |ids| then Returned(Response(200, SentToBody(|old(db.connections)|))) else Raised)
    ensures validation.Accepted? ==>
      && |db.trace| > |old(db.trace)|
      && db.trace[|old(db.trace)|].MessagePut?
      && forall k :: |old(db.trace)| < k < |db.trace| ==> db.trace[k].Posted?
  {
    match validation
    case Rejected(reason) =>
      o := Returned(Response(400, ShapeErrorBody(reason)));
    case Accepted(content) =>
      o := ConnectApp.StoreAndBroadcast(db, Author, content, timestamp, reachable);
  }
}
