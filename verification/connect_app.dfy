/**
 * The first generation of handlers, `chat_backend/connect/app.py`: the
 * connection manager, recent-history retrieval and message sending with
 * token verification and broadcast.
 */
module ConnectApp {
  import opened Wrappers
  import opened Common
  import opened MessageLog
  import opened Tables

  // ---------------------------------------------------------------------
  // connect / _connect
  // ---------------------------------------------------------------------

  /** What `connect` decides to do, before it touches a table. */
  datatype Action =
    | Reply(response: Response)
    | Register(connectionId: string)
    | Unregister(connectionId: string)

  /**
   * The branching of `connect` (with the guard of `_connect`): the event
   * type is looked at first, the connection id only for CONNECT and
   * DISCONNECT.
   */
  function ConnectRoute(connectionId: Option<string>, eventType: string): (a: Action)
    ensures a.Reply? <==> eventType !in {ConnectEvent, DisconnectEvent} || IsMissing(connectionId)
    ensures a.Reply? ==> a.response.statusCode == 500
    ensures eventType !in {ConnectEvent, DisconnectEvent} ==> a == Reply(Response(500, UnrecognizedEventBody))
    ensures eventType in {ConnectEvent, DisconnectEvent} && IsMissing(connectionId) ==> a == Reply(Response(500, MissingIdBody))
    ensures a.Register? ==> eventType == ConnectEvent && a.connectionId == connectionId.value
    ensures a.Unregister? ==> eventType == DisconnectEvent && a.connectionId == connectionId.value
  {
    if eventType == ConnectEvent then
      if IsMissing(connectionId) then Reply(Response(500, MissingIdBody)) else Register(connectionId.value)
    else if eventType == DisconnectEvent then
      if IsMissing(connectionId) then Reply(Response(500, MissingIdBody)) else Unregister(connectionId.value)
    else
      Reply(Response(500, UnrecognizedEventBody))
  }

  /** `_connect`: stores an item holding only the connection id. */
  method ConnectId(db: Store, connectionId: Option<string>) returns (r: Response)
    requires db.Valid()
    modifies db
    ensures db.Valid()
    ensures IsMissing(connectionId) ==> r == Response(500, MissingIdBody) && db.State() == old(db.State())
    ensures !IsMissing(connectionId) ==>
      && r == Response(200, ConnectBody)
      && db.connections == old(db.connections)[connectionId.value := None]
      && db.scanOrder == ScanAfterPut(old(db.scanOrder), old(db.connections), connectionId.value)
      && db.messages == old(db.messages)
      && db.trace == old(db.trace) + [ConnectionPut(connectionId.value, None)]
  {
    if IsMissing(connectionId) {
      return Response(500, MissingIdBody);
    }
    db.PutConnection(connectionId.value, None);
    r := Response(200, ConnectBody);
  }

  /** `connect`: the WebSocket `$connect` / `$disconnect` route. */
  method Connect(db: Store, connectionId: Option<string>, eventType: string) returns (r: Response)
    requires db.Valid()
    modifies db
    ensures db.Valid()
    ensures ConnectRoute(connectionId, eventType).Reply? ==>
      r == ConnectRoute(connectionId, eventType).response && db.State() == old(db.State())
    ensures ConnectRoute(connectionId, eventType).Register? ==>
      var id := ConnectRoute(connectionId, eventType).connectionId;
      && r == Response(200, ConnectBody)
      && db.connections == old(db.connections)[id := None]
      && db.scanOrder == ScanAfterPut(old(db.scanOrder), old(db.connections), id)
      && db.messages == old(db.messages)
      && db.trace == old(db.trace) + [ConnectionPut(id, None)]
    ensures ConnectRoute(connectionId, eventType).Unregister? ==>
      var id := ConnectRoute(connectionId, eventType).connectionId;
      && r == Response(200, DisconnectBody)
      && db.connections == old(db.connections) - {id}
      && db.scanOrder == Without(old(db.scanOrder), id)
      && db.messages == old(db.messages)
      && db.trace == old(db.trace) + [ConnectionDeleted(id)]
  {
    if eventType == ConnectEvent {
      r := ConnectId(db, connectionId);
    } else if eventType == DisconnectEvent {
      if IsMissing(connectionId) {
        return Response(500, MissingIdBody);
      }
      db.DeleteConnection(connectionId.value);
      r := Response(200, DisconnectBody);
    } else {
      r := Response(500, UnrecognizedEventBody);
    }
  }

  /** A connection registered by CONNECT is gone after DISCONNECT of the same id. */
  method ConnectThenDisconnect(db: Store, connectionId: string) returns (first: Response, second: Response)
    requires db.Valid()
    requires connectionId != ""
    modifies db
    ensures db.Valid()
    ensures first == Response(200, ConnectBody) && second == Response(200, DisconnectBody)
    ensures db.connections == old(db.connections) - {connectionId}
    ensures connectionId !in db.ScanConnections()
  {
    first := Connect(db, Some(connectionId), ConnectEvent);
    second := Connect(db, Some(connectionId), DisconnectEvent);
  }

  // ---------------------------------------------------------------------
  // get_recent_messages
  // ---------------------------------------------------------------------

  /** The payload `get_recent_messages` sends: the recent history, username and content only. */
  function RecentPayload(table: MessageTable): (p: Payload)
    ensures |p.messages| == |RecentHistory(table)| <= RecentLimit
  {
    Payload(Project(RecentHistory(table)))
  }

  /**
   * `get_recent_messages`: queries the ten newest messages of room
   * "general", keeps username and content, reverses the list in place to
   * oldest-first and posts it to the requesting connection.
   */
  method GetRecentMessages(db: Store, connectionId: Option<string>, reachable: string -> bool) returns (o: Outcome)
    requires db.Valid()
    modifies db
    ensures db.Valid()
    ensures db.connections == old(db.connections) && db.scanOrder == old(db.scanOrder) && db.messages == old(db.messages)
    ensures IsMissing(connectionId) ==> o == Returned(Response(500, IdNotSetBody)) && db.trace == old(db.trace)
    ensures !IsMissing(connectionId) && reachable(connectionId.value) ==>
      && o == Returned(Response(200, SentRecentBody(connectionId.value)))
      && db.trace == old(db.trace) + [Posted(connectionId.value, RecentPayload(old(db.messages)))]
    ensures !IsMissing(connectionId) && !reachable(connectionId.value) ==> o == Raised && db.trace == old(db.trace)
  {
    if IsMissing(connectionId) {
      return Returned(Response(500, IdNotSetBody));
    }
    var id := connectionId.value;
    var items := db.QueryMessages(GeneralRoom, RecentLimit);
    var projected := Project(items);
    var messages := new Summary[|projected|](i requires 0 <= i < |projected| => projected[i]);
    assert messages[..] == projected;
    ReverseInPlace(messages);
    ProjectReversed(items);
    assert Payload(messages[..]) == RecentPayload(db.messages);
    var ok := db.PostToConnection(id, Payload(messages[..]), reachable);
    if !ok {
      return Raised;
    }
    o := Returned(Response(200, SentRecentBody(id)));
  }

  /**
   * What the requester receives: at most ten messages of room "general",
   * oldest first, each the username and content of a stored message, and
   * no stored message of the room newer than the oldest one sent is left out.
   */
  lemma RecentPayloadIsNewestAscending(table: MessageTable)
    ensures |RecentPayload(table).messages| <= RecentLimit
    ensures forall i :: 0 <= i < |RecentPayload(table).messages| ==>
      RecentPayload(table).messages[i]
        == Summary(RecentHistory(table)[i].username, RecentHistory(table)[i].content)
    ensures forall it :: it in RecentHistory(table) ==>
      it.room == GeneralRoom && it.Key() in table && table[it.Key()] == it.Attributes()
    ensures forall i, j :: 0 <= i < j < |RecentHistory(table)| ==> RecentHistory(table)[i].index < RecentHistory(table)[j].index
    ensures forall k :: k in RoomIndices(table, GeneralRoom) && k !in IndexSet(RecentHistory(table)) ==>
      forall it :: it in RecentHistory(table) ==> k < it.index
  {
    RecentHistoryIsNewestAscending(table);
  }

  // ---------------------------------------------------------------------
  // send_message
  // ---------------------------------------------------------------------

  /** The JSON-decoded request body: an object of string fields, or any other JSON value. */
  datatype Body = NotDict | Dict(fields: map<string, string>)

  /** `_get_body`: a body that does not decode counts as the empty object. */
  function GetBody(decoded: Option<Body>): (b: Body)
    ensures decoded.Some? ==> b == decoded.value
    ensures decoded.None? ==> b.Dict? && b.fields == map[]
  {
    if decoded.Some? then decoded.value else Dict(map[])
  }

  /** The attributes `send_message` requires, in the order it checks them. */
  const RequiredAttributes := ["token", "content"]

  /** The first attribute of `required` the body lacks, if any. */
  function FirstMissing(fields: map<string, string>, required: seq<string>): (m: Option<string>)
    ensures m.None? <==> forall a :: a in required ==> a in fields
    ensures m.Some? ==> m.value !in fields && exists i ::
      (0 <= i < |required| && required[i] == m.value && forall k :: 0 <= k < i ==> required[k] in fields)
  {
    if required == [] then None
    else if required[0] !in fields then Some(required[0])
    else
      var rest := FirstMissing(fields, required[1..]);
      assert forall a :: a in required ==> a == required[0] || a in required[1..];
      if rest.Some? then
        ghost var i :| 0 <= i < |required[1..]| && required[1..][i] == rest.value
          && forall k :: 0 <= k < i ==> required[1..][k] in fields;
        assert required[i + 1] == rest.value;
        rest
      else rest
  }

  /** The reply naming the first attribute a body lacks. */
  function MissingAttributeBody(attribute: string): string
  {
    "'" + attribute + "' not in message dict"
  }

  /** The verdict of the checks that precede storing a message. */
  datatype Check = Reject(response: Response) | Accept(username: string, content: string)

  /**
   * The validation part of `send_message`: the body must be an object,
   * must hold "token" and then "content", and the token must verify; the
   * verifier yields the username or fails.
   */
  function CheckSend(body: Body, verify: string -> Option<string>): (c: Check)
    ensures c.Reject? ==> c.response.statusCode == 400
    ensures c.Accept? <==>
      body.Dict? && "token" in body.fields && "content" in body.fields && verify(body.fields["token"]).Some?
    ensures c.Accept? ==> c == Accept(verify(body.fields["token"]).value, body.fields["content"])
    ensures body.NotDict? ==> c.response.body == "Message body not in dict format."
    ensures body.Dict? && "token" !in body.fields ==> c.response.body == MissingAttributeBody("token")
    ensures body.Dict? && "token" in body.fields && "content" !in body.fields ==>
      c.response.body == MissingAttributeBody("content")
    ensures body.Dict? && "token" in body.fields && "content" in body.fields && verify(body.fields["token"]).None? ==>
      c.response.body == "Token verification failed."
  {
    if body.NotDict? then Reject(Response(400, "Message body not in dict format."))
    else
      match FirstMissing(body.fields, RequiredAttributes)
      case Some(attribute) =>
        assert attribute == "token" || attribute == "content";
        Reject(Response(400, MissingAttributeBody(attribute)))
      case None =>
        assert "token" in RequiredAttributes && "content" in RequiredAttributes;
        match verify(body.fields["token"])
        case None => Reject(Response(400, "Token verification failed."))
        case Some(username) => Accept(username, body.fields["content"])
  }

  /** A body that does not decode is reported as lacking its token. */
  lemma UndecodableBodyLacksToken(verify: string -> Option<string>)
    ensures CheckSend(GetBody(None), verify) == Reject(Response(400, MissingAttributeBody("token")))
  {
  }

  /**
   * Token verification as the file stands: `jwt` is never imported, so the
   * call raises `NameError`, which the bare `except` reports as a failed
   * verification, whatever the token.
   */
  function VerifyAsWritten(token: string): (u: Option<string>)
    ensures u.None?
  {
    None
  }

  /** As written, `send_message` rejects every request: no message is ever accepted. */
  lemma SendMessageAlwaysRejectedAsWritten(body: Body)
    ensures CheckSend(body, VerifyAsWritten).Reject?
    ensures body.Dict? && "token" in body.fields && "content" in body.fields ==>
      CheckSend(body, VerifyAsWritten).response == Response(400, "Token verification failed.")
  {
  }

  /** The payload a broadcast sends: the one new message, username and content only. */
  function MessagePayload(username: string, content: string): (p: Payload)
    ensures |p.messages| == 1
    ensures p.messages[0].username == username && p.messages[0].content == content
  {
    Payload([Summary(username, content)])
  }

  /**
   * The loop at the end of `send_message`: posts the payload to every
   * scanned connection, in scan order, and stops at the first post that
   * raises.
   */
  method Broadcast(db: Store, payload: Payload, reachable: string -> bool) returns (delivered: bool)
    requires db.Valid()
    modifies db
    ensures db.Valid()
    ensures db.connections == old(db.connections) && db.scanOrder == old(db.scanOrder) && db.messages == old(db.messages)
    ensures var ids := old(db.ScanConnections());
      var j := FirstUnreachable(ids, reachable);
      && delivered == (j == |ids|)
      && db.trace == old(db.trace) + Fanout(ids[..j], payload)
  {
    var ids := db.ScanConnections();
    ghost var before := db.trace;
    var i := 0;
    while i < |ids|
      invariant 0 <= i <= |ids|
      invariant db.Valid()
      invariant db.connections == old(db.connections) && db.scanOrder == old(db.scanOrder) && db.messages == old(db.messages)
      invariant forall k :: 0 <= k < i ==> reachable(ids[k])
      invariant db.trace == before + Fanout(ids[..i], payload)
    {
      var sent := db.PostToConnection(ids[i], payload, reachable);
      if !sent {
        StopsAt(ids, reachable, i);
        return false;
      }
      FanoutStep(ids, i, payload);
      i := i + 1;
    }
    assert ids[..i] == ids;
    StopsAt(ids, reachable, i);
    delivered := true;
  }

  /** One more round of the loop adds one post, to the next id. */
  lemma FanoutStep(ids: seq<string>, i: nat, payload: Payload)
    requires i < |ids|
    ensures Fanout(ids[..i + 1], payload) == Fanout(ids[..i], payload) + [Posted(ids[i], payload)]
  {
    assert ids[..i + 1][..i] == ids[..i];
  }

  /** The loop stops where every earlier id was reachable and this one is not (or the list ends). */
  lemma StopsAt(ids: seq<string>, reachable: string -> bool, i: nat)
    requires i <= |ids|
    requires forall k :: 0 <= k < i ==> reachable(ids[k])
    requires i < |ids| ==> !reachable(ids[i])
    ensures FirstUnreachable(ids, reachable) == i
  {
  }

  /**
   * Lines 159-186 of `send_message`: assigns the next index, stores the
   * message, then broadcasts it and reports how many connections there are.
   */
  method StoreAndBroadcast(db: Store, username: string, content: string, timestamp: int, reachable: string -> bool)
    returns (o: Outcome)
    requires db.Valid()
    modifies db
    ensures db.Valid()
    ensures db.connections == old(db.connections) && db.scanOrder == old(db.scanOrder)
    ensures var item := NewMessage(old(db.messages), timestamp, username, content);
      var ids := old(db.ScanConnections());
      var j := FirstUnreachable(ids, reachable);
      && db.messages == old(db.messages)[item.Key() := item.Attributes()]
      && db.trace == old(db.trace) + [MessagePut(item)] + Fanout(ids[..j], MessagePayload(username, content))
      && o == (if j == |ids| then Returned(Response(200, SentToBody(|old(db.connections)|))) else Raised)
  {
    var item := NewMessage(db.messages, timestamp, username, content);
    db.PutMessage(item);
    var delivered := Broadcast(db, MessagePayload(username, content), reachable);
    if !delivered {
      return Raised;
    }
    o := Returned(Response(200, SentToBody(|db.ScanConnections()|)));
  }

  /** `send_message`: validates the body and the token, then stores and broadcasts. */
  method SendMessage(db: Store, body: Body, verify: string -> Option<string>, timestamp: int, reachable: string -> bool)
    returns (o: Outcome)
    requires db.Valid()
    modifies db
    ensures db.Valid()
    ensures db.connections == old(db.connections) && db.scanOrder == old(db.scanOrder)
    ensures CheckSend(body, verify).Reject? ==>
      o == Returned(CheckSend(body, verify).response) && db.State() == old(db.State())
    ensures CheckSend(body, verify).Accept? ==>
      var c := CheckSend(body, verify);
      var item := NewMessage(old(db.messages), timestamp, c.username, c.content);
      var ids := old(db.ScanConnections());
      var j := FirstUnreachable(ids, reachable);
      && db.messages == old(db.messages)[item.Key() := item.Attributes()]
      && db.trace == old(db.trace) + [MessagePut(item)] + Fanout(ids[..j], MessagePayload(c.username, c.content))
      && o == (if j == |ids| then Returned(Response(200, SentToBody(|old(db.connections)|))) else Raised)
  {
    match CheckSend(body, verify)
    case Reject(response) =>
      o := Returned(response);
    case Accept(username, content) =>
      o := StoreAndBroadcast(db, username, content, timestamp, reachable);
  }

  /**
   * When every post goes through, a successful send reaches every
   * connection of the table exactly once, and no other id, with the same
   * payload, and reports the table's size.
   */
  lemma BroadcastReachesEveryConnectionOnce(connections: map<string, Option<string>>, ids: seq<string>,
                                            payload: Payload, connectionId: string)
    requires Distinct(ids)
    requires forall id :: id in ids <==> id in connections
    ensures PostsTo(Fanout(ids, payload), connectionId) == if connectionId in connections then 1 else 0
    ensures |Fanout(ids, payload)| == |connections|
    ensures forall e :: e in Fanout(ids, payload) ==> e.Posted? && e.payload == payload
  {
    FanoutReachesEachOnce(ids, payload, connectionId);
    ScanSize(ids, connections);
  }
}
