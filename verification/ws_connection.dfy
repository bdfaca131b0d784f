/**
 * `connection_manager` of `chat_backend/ws_connection/app.py`: checks the
 * connection id, then the event type, then hands the event to the handler
 * `handler_map` names.
 */
module WsConnection {
  import opened Wrappers
  import opened Common
  import opened Tables
  import opened Handlers
  import ConnectApp

  /** The decision `connection_manager` takes: reply at once, or call a handler. */
  datatype Dispatch = Reply(response: Response) | Invoke(handler: Handler, connectionId: string)

  /**
   * The guards of `connection_manager`. A missing id is reported before the
   * event type is looked at, so it wins even for an unknown event type.
   */
  function ConnectionManager(connectionId: Option<string>, eventType: string): (d: Dispatch)
    ensures IsMissing(connectionId) ==> d == Reply(Response(500, MissingIdBody))
    ensures !IsMissing(connectionId) && HandlerMap(eventType).None? ==>
      d == Reply(Response(500, UnrecognizedEventBody))
    ensures d.Invoke? <==> !IsMissing(connectionId) && HandlerMap(eventType).Some?
    ensures d.Invoke? ==> EventTypeOf(d.handler) == eventType && d.connectionId == connectionId.value
  {
    if IsMissing(connectionId) then Reply(Response(500, MissingIdBody))
    else match HandlerMap(eventType)
      case None => Reply(Response(500, UnrecognizedEventBody))
      case Some(handler) => Invoke(handler, connectionId.value)
  }

  /**
   * The handler call as written: `handler_map[event_type](connection_id,
   * logger)` passes two arguments to functions that take three, so Python
   * raises `TypeError` whenever the guards let an event through.
   */
  function HandlerCallAsWritten(d: Dispatch): (o: Outcome)
    ensures o.Raised? <==> d.Invoke?
    ensures d.Reply? ==> o == Returned(d.response)
  {
    match d
    case Reply(response) => Returned(response)
    case Invoke(_, _) => Raised
  }

  /** As written, no valid CONNECT or DISCONNECT ever reaches its handler. */
  lemma ValidEventRaisesAsWritten(connectionId: Option<string>, eventType: string)
    requires !IsMissing(connectionId)
    requires eventType == ConnectEvent || eventType == DisconnectEvent
    ensures HandlerCallAsWritten(ConnectionManager(connectionId, eventType)) == Raised
  {
  }

  /**
   * `connection_manager` with the handler called by its declared
   * parameters: the username is passed along with the connection id.
   */
  method HandleEvent(db: Store, connectionId: Option<string>, eventType: string, username: string)
    returns (r: Response)
    requires db.Valid()
    modifies db
    ensures db.Valid()
    ensures ConnectionManager(connectionId, eventType).Reply? ==>
      r == ConnectionManager(connectionId, eventType).response && db.State() == old(db.State())
    ensures ConnectionManager(connectionId, eventType).Invoke? ==> db.messages == old(db.messages)
    ensures !IsMissing(connectionId) && eventType == ConnectEvent ==>
      && r == Response(200, ConnectBody)
      && db.connections == old(db.connections)[connectionId.value := Some(username)]
      && db.scanOrder == ScanAfterPut(old(db.scanOrder), old(db.connections), connectionId.value)
      && db.trace == old(db.trace) + [ConnectionPut(connectionId.value, Some(username))]
    ensures !IsMissing(connectionId) && eventType == DisconnectEvent ==>
      && r == Response(200, DisconnectBody)
      && db.connections == old(db.connections) - {connectionId.value}
      && db.scanOrder == Without(old(db.scanOrder), connectionId.value)
      && db.trace == old(db.trace) + [ConnectionDeleted(connectionId.value)]
  {
    match ConnectionManager(connectionId, eventType)
    case Reply(response) =>
      r := response;
    case Invoke(handler, id) =>
      r := Run(handler, db, id, username);
  }

  /**
   * The two connection managers disagree on exactly one kind of event: a
   * missing id together with an unknown event type, which this one reports
   * as a missing id and `connect/app.py` as an unknown event type. On every
   * other event they reply alike or both go on to change the table.
   */
  lemma GuardOrderDiffers(connectionId: Option<string>, eventType: string)
    ensures IsMissing(connectionId) && HandlerMap(eventType).None? ==>
      && ConnectionManager(connectionId, eventType) == Reply(Response(500, MissingIdBody))
      && ConnectApp.ConnectRoute(connectionId, eventType) == ConnectApp.Reply(Response(500, UnrecognizedEventBody))
    ensures !(IsMissing(connectionId) && HandlerMap(eventType).None?) ==>
      && (ConnectionManager(connectionId, eventType).Reply? <==> ConnectApp.ConnectRoute(connectionId, eventType).Reply?)
      && (ConnectionManager(connectionId, eventType).Reply? ==>
            ConnectionManager(connectionId, eventType).response == ConnectApp.ConnectRoute(connectionId, eventType).response)
  {
  }
}
