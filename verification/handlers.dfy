/**
 * The connection handlers of `chat_backend/ws_connection/handlers.py` and
 * the table that maps an event type to its handler.
 */
module Handlers {
  import opened Wrappers
  import opened Common
  import opened Tables

  /** The two handler functions `handler_map` refers to. */
  datatype Handler = ConnectHandler | DisconnectHandler

  /** The key each handler is registered under. */
  function EventTypeOf(handler: Handler): string
  {
    match handler
    case ConnectHandler => ConnectEvent
    case DisconnectHandler => DisconnectEvent
  }

  /**
   * `handler_map[eventType]`, or None for a key the map lacks: the map has
   * one key per handler and no other key.
   */
  function HandlerMap(eventType: string): (h: Option<Handler>)
    ensures forall handler :: h == Some(handler) <==> eventType == EventTypeOf(handler)
    ensures h.None? <==> eventType != ConnectEvent && eventType != DisconnectEvent
  {
    if eventType == ConnectEvent then Some(ConnectHandler)
    else if eventType == DisconnectEvent then Some(DisconnectHandler)
    else None
  }

  /** `connect`: stores the connection id together with the username. */
  method Connect(db: Store, connectionId: string, username: string) returns (r: Response)
    requires db.Valid()
    modifies db
    ensures db.Valid()
    ensures r == Response(200, ConnectBody)
    ensures db.connections == old(db.connections)[connectionId := Some(username)]
    ensures db.scanOrder == ScanAfterPut(old(db.scanOrder), old(db.connections), connectionId)
    ensures db.messages == old(db.messages)
    ensures db.trace == old(db.trace) + [ConnectionPut(connectionId, Some(username))]
  {
    db.PutConnection(connectionId, Some(username));
    r := Response(200, ConnectBody);
  }

  /**
   * `disconnect`: deletes the connection id. Deleting an id the table does
   * not hold succeeds too, so the reply is the same either way.
   */
  method Disconnect(db: Store, connectionId: string, username: string) returns (r: Response)
    requires db.Valid()
    modifies db
    ensures db.Valid()
    ensures r == Response(200, DisconnectBody)
    ensures db.connections == old(db.connections) - {connectionId}
    ensures db.scanOrder == Without(old(db.scanOrder), connectionId)
    ensures db.messages == old(db.messages)
    ensures db.trace == old(db.trace) + [ConnectionDeleted(connectionId)]
  {
    db.DeleteConnection(connectionId);
    r := Response(200, DisconnectBody);
  }

  /** Calls the handler function a `Handler` value stands for. */
  method Run(handler: Handler, db: Store, connectionId: string, username: string) returns (r: Response)
    requires db.Valid()
    modifies db
    ensures db.Valid()
    ensures db.messages == old(db.messages)
    ensures handler == ConnectHandler ==>
      && r == Response(200, ConnectBody)
      && db.connections == old(db.connections)[connectionId := Some(username)]
      && db.scanOrder == ScanAfterPut(old(db.scanOrder), old(db.connections), connectionId)
      && db.trace == old(db.trace) + [ConnectionPut(connectionId, Some(username))]
    ensures handler == DisconnectHandler ==>
      && r == Response(200, DisconnectBody)
      && db.connections == old(db.connections) - {connectionId}
      && db.scanOrder == Without(old(db.scanOrder), connectionId)
      && db.trace == old(db.trace) + [ConnectionDeleted(connectionId)]
  {
    match handler
    case ConnectHandler =>
      r := Connect(db, connectionId, username);
    case DisconnectHandler =>
      r := Disconnect(db, connectionId, username);
  }

  /**
   * `connect` followed by `disconnect` of the same id: the id is absent
   * afterwards, a scan no longer lists it, and every other entry is as before.
   */
  method ConnectThenDisconnect(db: Store, connectionId: string, username: string)
    returns (first: Response, second: Response)
    requires db.Valid()
    modifies db
    ensures db.Valid()
    ensures first.statusCode == 200 && second.statusCode == 200
    ensures connectionId !in db.connections && connectionId !in db.ScanConnections()
    ensures forall other :: other != connectionId ==>
      (other in db.connections <==> other in old(db.connections))
    ensures forall other :: other != connectionId && other in db.connections ==>
      db.connections[other] == old(db.connections)[other]
  {
    first := Connect(db, connectionId, username);
    second := Disconnect(db, connectionId, username);
  }
}
