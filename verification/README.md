# chat_app WebSocket handlers in Dafny

This project models the Lambda handlers behind a WebSocket chat on AWS:
the connection manager that registers and removes connection ids, the
recent-history request that sends the ten newest messages of room
`general` to the requesting client, and message sending, which checks the
request, stores the message under the next index and broadcasts it to
every connection. Two generations of the handlers are modelled:
`chat_backend/connect/app.py` (module `ConnectApp`) and its successors
`chat_backend/ws_connection/app.py` with `handlers.py` (modules
`WsConnection`, `Handlers`) and `chat_backend/message/app.py` (module
`MessageApp`).

Structure:

- `Wrappers` – the `Option` type (a Python value that may be `None`).
- `Common` – the response record `{statusCode, body}`, the fixed reply texts,
  the `{username, content}` summary and the `{"messages": [...]}` payload,
  `default_message`, the in-place list reversal.
- `MessageLog` – the message table as a map from key `(Room, Index)` to the
  stored attributes; the DynamoDB query "room = general, newest first,
  Limit n" as a function; the recent-history and next-index rules and their
  properties.
- `Tables` – one `Store` object holding the connection table, the message
  table and a `trace` of every table write and every `post_to_connection`,
  in order; the broadcast fan-out and its properties.
- `ConnectApp`, `Handlers`, `WsConnection`, `MessageApp` – the handlers.

Modelling decisions:

- External effects are recorded, not performed: each table write and each
  post to a connection appends one `Effect` to `Store.trace`. A post that
  API Gateway refuses raises in the source and aborts the handler; the
  model takes a `reachable` predicate on connection ids and ends the
  handler with `Raised` at the first unreachable id.
- `connect/app.py` writes new connections to the table named by the
  `TABLE_NAME` variable under the attribute `connectionId`, but deletes them
  from `serverless-chat_Connections` under `ConnectionID`, and the broadcast
  scans `serverless-chat_Connections` for `ConnectionID`. DynamoDB
  attribute names are case-sensitive, so as the code is written no single
  table matches both spellings: items written at line 50 are neither
  deleted at line 77 nor found by the scan at lines 175-177. The model
  nevertheless treats all of them as one table with one key attribute, so
  that the lifecycle and the broadcast can be stated together; the
  spelling mismatch itself is not modelled.
- A DynamoDB scan returns every item once in some order it does not
  promise; the model fixes one such order, first-write order
  (`Store.scanOrder`). Only which prefix of the connections is posted to
  before a failing post raises depends on this choice.
- The JWT verifier, the current time and the JSON-decoded body are
  parameters. The validation helpers `message/app.py` imports
  (`validate_event`, `get_body`, `validate_body`, `put_message_to_db`,
  `broadcast_message`) are not among the shown files; their combined
  outcome is the parameter `MessageApp.Validation`, the stored item follows
  `chat_backend/tests/unit/sending_messages_test.py:33-36`, and the
  broadcast is taken to be the one of `connect/app.py`.

## Model

| member | source | states |
|---|---|---|
| `Common.DefaultMessage` | chat_backend/message/app.py:10-15 | Always status 400 with "Unrecognized WebSocket action."; it reads and changes no state (the same rule as chat_backend/connect/app.py:86-91). |
| `Common.ReverseInPlace` | chat_backend/connect/app.py:117 | Reverses the array in place: afterwards element i is the old element n-1-i. |
| `MessageLog.NewestFirst` | chat_backend/connect/app.py:109-111 | The query's index order: at most n indices of the set, strictly descending; every index left out is smaller than every index returned; fewer than n only when the whole set is returned. |
| `MessageLog.MaxOf` | chat_backend/connect/app.py:111 | The newest index of a non-empty room is a member of the room's indices and at least every other one. |
| `MessageLog.NewestMessages` | chat_backend/connect/app.py:109-112 | A query with `Limit=n` returns at most n items. |
| `MessageLog.NewestMessagesStored` | chat_backend/connect/app.py:109-112 | Every item the query returns belongs to the queried room and is the item stored under its key. |
| `MessageLog.NewestMessagesDescending` | chat_backend/connect/app.py:111 | `ScanIndexForward=False`: the items come in strictly descending index order. |
| `MessageLog.NewestMessagesComplete` | chat_backend/connect/app.py:109-111 | A query that returns fewer items than its limit returns every item of the room. |
| `MessageLog.NewestMessagesNewest` | chat_backend/connect/app.py:109-111 | Every item of the room that the query leaves out is older than every item it returns. |
| `MessageLog.Fetch` | chat_backend/connect/app.py:112 | The items fetched for a list of indices are the stored items of the room, one per index, in the same order. |
| `MessageLog.Project` | chat_backend/connect/app.py:115-116 | Each item becomes exactly its username and content, position by position. |
| `MessageLog.ProjectReversed` | chat_backend/connect/app.py:115-117 | Projecting then reversing equals reversing then projecting, so the list reversed in place is the projection of the oldest-first history. |
| `MessageLog.RecentHistoryIsNewestAscending` | chat_backend/connect/app.py:107-117 | The recent history holds at most 10 messages of room "general", each as stored, in strictly ascending index order; every message of the room it leaves out is older than all it holds, and it leaves none out when it holds fewer than 10. |
| `MessageLog.RoomIndicesMember` | chat_backend/connect/app.py:109-110 | An index belongs to the room exactly when a message with that room and index is stored. |
| `MessageLog.NextIndex` | chat_backend/connect/app.py:159-164 | The next index is 0 when the room is empty and otherwise the greatest index of the room plus one; it exceeds every index the room holds. |
| `MessageLog.NewMessage` | chat_backend/connect/app.py:164-171 | The stored item is {Room "general", Index the next index, Timestamp, Username, Content} with the given timestamp, username and content, and its key is not yet in the table. |
| `MessageLog.RecentHistory` | chat_backend/connect/app.py:109-117 | The query result reversed to oldest-first holds at most 10 items (its other properties are in RecentHistoryIsNewestAscending). |
| `MessageLog.NewMessageIsFresh` | chat_backend/connect/app.py:164-171 | The new message's key is not in the table, its index exceeds every index of the room, and storing it grows the table by exactly one item. |
| `MessageLog.StoringAdvancesIndex` | chat_backend/connect/app.py:159-171 | After a message is stored, the next index is exactly one higher. |
| `MessageLog.SuccessiveStoresAreConsecutive` | chat_backend/connect/app.py:155-171 | Sequential sends receive the indices k, k+1, k+2, ... from the current next index k, so indices stay unique and strictly increasing. |
| `Tables.Fanout` | chat_backend/connect/app.py:183-184 | One post per id, in the order of the ids, all with the same payload. |
| `Tables.FanoutReachesEachOnce` | chat_backend/connect/app.py:183-184 | Over a duplicate-free list of ids, a broadcast posts exactly once to each id on the list and never to any other id. |
| `Tables.FirstUnreachable` | chat_backend/connect/app.py:183-184 | Where the loop stops: every id before it is reachable and the id at it is not, or it is the end of the list. |
| `Tables.ScanSize` | chat_backend/connect/app.py:175-177 | A scan listing every connection once has as many ids as the table has items. |
| `Tables.ScanAfterPut` | chat_backend/connect/app.py:50 | After a `put_item` the scan lists the id together with every id listed before; an id already in the table keeps the order unchanged. |
| `Tables.Store.PutConnection` | chat_backend/connect/app.py:50 | `put_item` on the connection table creates or replaces the entry for the id, adds it to the scan order if new, leaves the message table alone and records the write. |
| `Tables.Store.DeleteConnection` | chat_backend/connect/app.py:76-77 | `delete_item` removes the id whether or not it was present, keeps the other entries and records the delete. |
| `Tables.Store.PutMessage` | chat_backend/connect/app.py:169-171 | `put_item` on the message table stores the item under its (Room, Index) key, leaves the connection table alone and records the write. |
| `Tables.Store.PostToConnection` | chat_backend/connect/app.py:31-36 | A post succeeds exactly when the id is reachable; a successful post is recorded, a failed one changes nothing. |
| `Tables.Store.ScanConnections` | chat_backend/connect/app.py:174-177 | The scan lists every connection id of the table, each exactly once, and no other. |
| `Tables.Store.QueryMessages` | chat_backend/connect/app.py:108-112 | The query returns at most `limit` items, each of the queried room and as stored. |
| `ConnectApp.ConnectRoute` | chat_backend/connect/app.py:61-83 | The event type is checked first: an unknown type gives 500 "Unrecognized eventType..." whatever the id; CONNECT or DISCONNECT with a missing or empty id gives 500 "connectionId value must not be empty or missing"; otherwise register (CONNECT) or remove (DISCONNECT) the given id. |
| `ConnectApp.ConnectId` | chat_backend/connect/app.py:39-51 | A missing or empty id gives 500 and changes nothing; otherwise the id is stored without a username and the reply is 200 "Connect successful.". |
| `ConnectApp.Connect` | chat_backend/connect/app.py:54-83 | Every reply of 500 leaves the tables and the trace unchanged; CONNECT adds exactly the id and replies 200 "Connect successful."; DISCONNECT removes exactly the id and replies 200 "Disconnect successful."; the scan order, the message table and the trace change only by that one write. |
| `ConnectApp.ConnectThenDisconnect` | chat_backend/connect/app.py:63-78 | CONNECT then DISCONNECT of the same id both reply 200 and leave the id absent from the table and from a scan, all other entries as before. |
| `ConnectApp.GetRecentMessages` | chat_backend/connect/app.py:94-124 | A missing id gives 500 "connectionId value not set." and posts nothing; otherwise exactly one post goes to the requester, carrying the recent history as username/content pairs, and the reply is 200 "Sent recent messages to '<id>'."; an unreachable requester makes it raise; no table changes. |
| `ConnectApp.RecentPayload` | chat_backend/connect/app.py:114-120 | The data `{"messages": [...]}` posted to the requester has one entry per message of the recent history, so at most 10. |
| `ConnectApp.RecentPayloadIsNewestAscending` | chat_backend/connect/app.py:107-121 | The requester receives at most 10 messages of room "general", oldest first, each only the username and content of a stored message, with no newer message of the room left out. |
| `ConnectApp.FirstMissing` | chat_backend/connect/app.py:139-144 | Names the first required attribute the body lacks, in list order, with every earlier one present; nothing only when all are present. |
| `ConnectApp.CheckSend` | chat_backend/connect/app.py:134-153 | A body that is not an object gives 400 "Message body not in dict format."; a missing "token" gives 400 naming token, before a missing "content" gives 400 naming content; a token that fails verification gives 400 "Token verification failed."; the request is accepted exactly when the body has both attributes and the token verifies, with the verifier's username and the body's content. |
| `ConnectApp.GetBody` | chat_backend/connect/app.py:17-22 | A body that decodes is used as decoded; one that does not decode becomes the empty object. |
| `ConnectApp.UndecodableBodyLacksToken` | chat_backend/connect/app.py:17-22 | A body that does not decode is treated as the empty object and rejected for lacking "token". |
| `ConnectApp.VerifyAsWritten` | chat_backend/connect/app.py:147-153 | Token verification as the file stands fails for every token (`jwt` is never imported, and the bare `except` catches the `NameError`). |
| `ConnectApp.SendMessageAlwaysRejectedAsWritten` | chat_backend/connect/app.py:146-153 | With verification as the file stands, every request is rejected, and every well-formed one with "Token verification failed.". |
| `ConnectApp.MessagePayload` | chat_backend/connect/app.py:180-182 | The broadcast data holds exactly one message, with the sender's username and the body's content. |
| `ConnectApp.Broadcast` | chat_backend/connect/app.py:173-184 | Posts the payload to the scanned ids in scan order, stopping at the first unreachable one; reports success exactly when every id was reachable; no table changes. |
| `ConnectApp.StopsAt` | chat_backend/connect/app.py:183-184 | The loop position where every earlier id was reachable and this one is not (or the list has ended) is the first unreachable position. |
| `ConnectApp.StoreAndBroadcast` | chat_backend/connect/app.py:159-186 | Stores exactly one item {general, next index, timestamp, username, content}, leaving the rest of the message table as it was, then posts {"messages": [{username, content}]} to the connections; replies 200 "Message sent to N connections." with N the table's size, or raises at the first unreachable connection. |
| `ConnectApp.SendMessage` | chat_backend/connect/app.py:127-186 | A request the checks reject gets their 400 reply and nothing is stored or sent; an accepted one is stored and then broadcast as in StoreAndBroadcast; the connection table never changes. |
| `ConnectApp.BroadcastReachesEveryConnectionOnce` | chat_backend/connect/app.py:173-186 | A complete broadcast posts to every connection of the table exactly once and to no other id, all with the same payload, and makes as many posts as the table has connections. |
| `Handlers.HandlerMap` | chat_backend/ws_connection/handlers.py:22-25 | The map has exactly two keys, CONNECT for the connect handler and DISCONNECT for the disconnect handler; every other event type is absent. |
| `Handlers.Connect` | chat_backend/ws_connection/handlers.py:4-10 | Stores the pair (id, username), replacing only that id's entry, records one insert and replies 200 "Connect successful.". |
| `Handlers.Disconnect` | chat_backend/ws_connection/handlers.py:13-19 | Removes only that id's entry, records one delete and replies 200 "Disconnect successful." whether or not the id was present. |
| `Handlers.Run` | chat_backend/ws_connection/app.py:38 | Calling the handler a map value stands for has exactly that handler's effect and reply. |
| `Handlers.ConnectThenDisconnect` | chat_backend/ws_connection/handlers.py:4-19 | Connect then disconnect of the same id: both reply 200, the id is absent afterwards, and every other entry keeps its presence and username. |
| `WsConnection.ConnectionManager` | chat_backend/ws_connection/app.py:26-38 | A missing or empty id gives 500 "connectionId value must not be empty or missing" whatever the event type; otherwise an event type the handler map lacks gives 500 "Unrecognized eventType..."; otherwise the handler registered for the type is called with the id. |
| `WsConnection.HandlerCallAsWritten` | chat_backend/ws_connection/app.py:38 | As written, a guard reply is returned unchanged and every handler call raises. |
| `WsConnection.ValidEventRaisesAsWritten` | chat_backend/ws_connection/app.py:38 | As written, every CONNECT or DISCONNECT that passes the guards raises, because the handler is called with one argument too few. |
| `WsConnection.HandleEvent` | chat_backend/ws_connection/app.py:19-38 | A guard reply changes nothing and no handler runs; otherwise the reply and the single table change are exactly those of the chosen handler. |
| `WsConnection.GuardOrderDiffers` | chat_backend/ws_connection/app.py:29-36 | This manager and the one in connect/app.py differ only on a missing id with an unknown event type (missing-id reply here, unknown-type reply there); on every other event both reply alike or both go on to a handler. |
| `MessageApp.GetRecentMessages` | chat_backend/message/app.py:18-48 | Same as in connect/app.py: 500 "connectionId value not set." without a post for a missing id; otherwise one post of the recent history to the requester and 200, or a raise if it is unreachable. |
| `MessageApp.SendMessage` | chat_backend/message/app.py:51-69 | A failed validation gives 400 "Event or body are not in correct shape or format:(<reason>)" and changes nothing; otherwise the item {general, next index, timestamp, "Mate", content} is stored first and only then broadcast. |

## Left out

- Network and client set-up: building the API Gateway management client
  from the request's domain and stage, and the encoding of the posted data
  as JSON bytes. A post is an abstract recorded effect whose success is
  decided by the `reachable` parameter.
- JSON: decoding of the body is replaced by the decoded value (`Body`, with
  a failed decode as the empty object); `json.dumps` in `_get_response` and
  `build_response` is not modelled because every reply body is a string.
- Logging, table handles and the environment variables that name tables.
- Attribute spelling: `connectionId` versus `ConnectionID`, and the
  capitalised attribute names of `connect/app.py` versus the lower-case
  ones in `chat_backend/tests/unit/sending_messages_test.py:33-36`, are not
  distinguished; the scan's filter `"ConnectionID" in x` is taken to keep
  every connection item.
- DynamoDB failures and paging: put, delete, query and scan always succeed
  and return all their results; only posts can fail.
- ConnectApp.CheckSend: body attribute values are taken to be strings. The
  source accepts any decoded JSON object, so "content" may be a number,
  list, object or null, which it stores and broadcasts unchanged; the model
  does not cover non-string values.
- ConnectApp.ConnectRoute: the event type is taken to be present. The
  source reads `requestContext["eventType"]` by subscript
  (`connect/app.py:63`), so an event without one raises `KeyError`; the
  model does not cover that case.
- WsConnection.ConnectionManager: the event type is taken to be present.
  The source reads it by subscript at `ws_connection/app.py:27`, before the
  id guard, so an event without one raises `KeyError` even when the id is
  missing too; the "whatever the event type" of the missing-id rule holds
  only for events that carry a type.
- ConnectApp.CheckSend: the verifier returns a username string; a token
  whose payload has no "username" (Python `None`) is not modelled.
- JWT decoding itself is a parameter; see Findings for the file as written.
- MessageApp.SendMessage: the validation helpers and `broadcast_message`
  are not shown, so validation is a parameter and the broadcast is assumed
  to be the one of `connect/app.py`; `chat_backend/message/utils.py` and
  `chat_backend/ws_connection/utils.py` are otherwise plumbing.
- The current time is the `timestamp` parameter.
- Concurrency: two simultaneous sends can read the same latest index and
  write the same key (noted in `connect/app.py:155-158`); the model is
  sequential.
- The default username `'user_' + uuid1()` and the username read from the
  query string appear only in the tests, not in `ws_connection/app.py`; the
  corrected `WsConnection.HandleEvent` takes the username as a parameter.
- `socket/socket/connect/app.py` (a ping Lambda writing one fixed item) is
  not part of this model.

## Findings

| source | as written | input that shows it | evidently intended | confidence | as-written member | corrected member |
|---|---|---|---|---|---|---|
| chat_backend/connect/app.py:147-153 | `jwt.decode` is called but `jwt` is never imported; the `NameError` is caught by the bare `except` | any body `{"token": t, "content": c}` gets 400 "Token verification failed." | verify the token and accept the message with the token's username | high, not executed | `ConnectApp.SendMessageAlwaysRejectedAsWritten` | `ConnectApp.CheckSend` |
| chat_backend/ws_connection/app.py:38 | `handler_map[event_type](connection_id, logger)` calls handlers declared with `(connection_id, username, logger)` | eventType "CONNECT" with connectionId "ASD" raises `TypeError` | call the handler with the connection id and a username, replying 200 as `chat_backend/tests/unit/ws_connect_test.py:19-26` expects | high, not executed | `WsConnection.ValidEventRaisesAsWritten` | `WsConnection.HandleEvent` |
