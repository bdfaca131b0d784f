/**
 * The external state the handlers work on, as one object: the connection
 * table, the message table, and the trace of every write to either table and
 * every `post_to_connection` call, in the order they happen.
 */
module Tables {
  import opened Wrappers
  import opened Common
  import opened MessageLog

  /** One externally visible effect of a handler. */
  datatype Effect =
    | ConnectionPut(connectionId: string, username: Option<string>)
    | ConnectionDeleted(connectionId: string)
    | MessagePut(item: MessageItem)
    | Posted(connectionId: string, payload: Payload)

  /** The posts of one broadcast loop: one per id, in order, all with the same payload. */
  function Fanout(ids: seq<string>, payload: Payload): (effects: seq<Effect>)
    ensures |effects| == |ids|
    ensures forall i :: 0 <= i < |ids| ==> effects[i] == Posted(ids[i], payload)
  {
    if ids == [] then [] else Fanout(ids[..|ids| - 1], payload) + [Posted(ids[|ids| - 1], payload)]
  }

  /** How many posts to `connectionId` a trace holds. */
  function PostsTo(effects: seq<Effect>, connectionId: string): nat
  {
    if effects == [] then 0
    else
      var last := effects[|effects| - 1];
      PostsTo(effects[..|effects| - 1], connectionId) + (if last.Posted? && last.connectionId == connectionId then 1 else 0)
  }

  /**
   * A broadcast over a duplicate-free list of ids posts exactly once to each
   * id of the list and never to any other id.
   */
  lemma {:induction false} FanoutReachesEachOnce(ids: seq<string>, payload: Payload, connectionId: string)
    requires Distinct(ids)
    ensures PostsTo(Fanout(ids, payload), connectionId) == if connectionId in ids then 1 else 0
  {
    if ids != [] {
      var front := ids[..|ids| - 1];
      assert Fanout(ids, payload)[..|ids| - 1] == Fanout(front, payload);
      FanoutReachesEachOnce(front, payload, connectionId);
      assert connectionId in ids <==> connectionId in front || connectionId == ids[|ids| - 1] by {
        assert ids == front + [ids[|ids| - 1]];
      }
      assert ids[|ids| - 1] !in front;
    }
  }

  /**
   * The position of the first id the gateway refuses, or |ids| when it
   * accepts them all: where a broadcast loop stops.
   */
  function FirstUnreachable(ids: seq<string>, reachable: string -> bool): (j: nat)
    ensures j <= |ids|
    ensures forall k :: 0 <= k < j ==> reachable(ids[k])
    ensures j < |ids| ==> !reachable(ids[j])
  {
    if ids == [] || !reachable(ids[0]) then 0 else 1 + FirstUnreachable(ids[1..], reachable)
  }

  /** A scan that lists every key of the table exactly once has the table's size. */
  lemma ScanSize(order: seq<string>, connections: map<string, Option<string>>)
    requires Distinct(order)
    requires forall id :: id in order <==> id in connections
    ensures |order| == |connections|
  {
    DistinctCardinality(order);
    assert (set x | x in order) == connections.Keys;
  }

  /**
   * The scan order after a `put_item` of `connectionId`: a new id joins at
   * the end, a replaced one keeps its place.
   */
  function ScanAfterPut(order: seq<string>, connections: map<string, Option<string>>, connectionId: string): (r: seq<string>)
    requires forall id :: id in order <==> id in connections
    ensures connectionId in r
    ensures forall id :: id in r <==> id in order || id == connectionId
    ensures connectionId in connections ==> r == order
  {
    if connectionId in connections then order else order + [connectionId]
  }

  class Store {
    /** The connection table: connection id -> username, None when the item has no username. */
    var connections: map<string, Option<string>>
    /**
     * The order in which a scan returns the connection items. DynamoDB
     * promises no particular order; the model fixes one, first-write order.
     */
    var scanOrder: seq<string>
    /** The message table `serverless-chat_Messages`. */
    var messages: MessageTable
    /** Every table write and every post, oldest first. */
    var trace: seq<Effect>

    /** Everything a handler can change, for stating that a call changes nothing. */
    function State(): (map<string, Option<string>>, seq<string>, MessageTable, seq<Effect>)
      reads this
    {
      (connections, scanOrder, messages, trace)
    }

    ghost predicate Valid()
      reads this
    {
      && Distinct(scanOrder)
      && (forall id :: id in scanOrder <==> id in connections)
    }

    constructor ()
      ensures Valid()
      ensures connections == map[] && scanOrder == [] && messages == map[] && trace == []
    {
      connections, scanOrder, messages, trace := map[], [], map[], [];
    }

    /** `put_item` on the connection table: the item for `connectionId` is created or replaced. */
    method PutConnection(connectionId: string, username: Option<string>)
      requires Valid()
      modifies this
      ensures Valid()
      ensures connections == old(connections)[connectionId := username]
      ensures scanOrder == ScanAfterPut(old(scanOrder), old(connections), connectionId)
      ensures messages == old(messages)
      ensures trace == old(trace) + [ConnectionPut(connectionId, username)]
    {
      if connectionId !in connections {
        scanOrder := scanOrder + [connectionId];
      }
      connections := connections[connectionId := username];
      trace := trace + [ConnectionPut(connectionId, username)];
    }

    /** `delete_item` on the connection table: succeeds whether or not the item exists. */
    method DeleteConnection(connectionId: string)
      requires Valid()
      modifies this
      ensures Valid()
      ensures connections == old(connections) - {connectionId}
      ensures scanOrder == Without(old(scanOrder), connectionId)
      ensures messages == old(messages)
      ensures trace == old(trace) + [ConnectionDeleted(connectionId)]
    {
      scanOrder := Without(scanOrder, connectionId);
      connections := connections - {connectionId};
      trace := trace + [ConnectionDeleted(connectionId)];
    }

    /** `put_item` on the message table: the item under the message's key is created or replaced. */
    method PutMessage(item: MessageItem)
      requires Valid()
      modifies this
      ensures Valid()
      ensures messages == old(messages)[item.Key() := item.Attributes()]
      ensures connections == old(connections) && scanOrder == old(scanOrder)
      ensures trace == old(trace) + [MessagePut(item)]
    {
      messages := messages[item.Key() := item.Attributes()];
      trace := trace + [MessagePut(item)];
    }

    /**
     * `post_to_connection`: the gateway accepts the post when `reachable`
     * says so; otherwise the call raises and nothing is delivered.
     */
    method PostToConnection(connectionId: string, payload: Payload, reachable: string -> bool) returns (ok: bool)
      requires Valid()
      modifies this
      ensures Valid()
      ensures ok == reachable(connectionId)
      ensures connections == old(connections) && scanOrder == old(scanOrder) && messages == old(messages)
      ensures trace == if ok then old(trace) + [Posted(connectionId, payload)] else old(trace)
    {
      ok := reachable(connectionId);
      if ok {
        trace := trace + [Posted(connectionId, payload)];
      }
    }

    /** `scan()` of the connection table: every connection id, once each. */
    function ScanConnections(): (ids: seq<string>)
      reads this
      requires Valid()
      ensures Distinct(ids)
      ensures forall id :: id in ids <==> id in connections
      ensures |ids| == |connections|
    {
      ScanSize(scanOrder, connections);
      scanOrder
    }

    /** `query(Room = room, ScanIndexForward=False, Limit=limit)` on the message table. */
    function QueryMessages(room: string, limit: nat): (items: seq<MessageItem>)
      reads this
      ensures |items| <= limit
      ensures forall it :: it in items ==> it.room == room && it.Key() in messages && messages[it.Key()] == it.Attributes()
    {
      NewestMessagesStored(messages, room, limit);
      NewestMessages(messages, room, limit)
    }
  }
}
