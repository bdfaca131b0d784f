/**
 * The message table `serverless-chat_Messages` and the pure rules the handlers
 * apply to it: the partition key is the room, the sort key the integer index.
 * A DynamoDB query "Room = room, ScanIndexForward=False, Limit=n" yields the
 * n items of the room with the greatest indices, newest first.
 */
module MessageLog {
  import opened Common

  /** Every handler reads and writes room "general" only. */
  const GeneralRoom := "general"
  /** `Limit=10` of the history query. */
  const RecentLimit := 10

  datatype MessageKey = MessageKey(room: string, index: int)

  /** The non-key attributes of a stored message. */
  datatype Stored = Stored(timestamp: int, username: string, content: string)

  /** A whole item `{Room, Index, Timestamp, Username, Content}`. */
  datatype MessageItem = MessageItem(room: string, index: int, timestamp: int, username: string, content: string)
  {
    function Key(): MessageKey { MessageKey(room, index) }
    function Attributes(): Stored { Stored(timestamp, username, content) }
  }

  /** The table: at most one item per (room, index); `put_item` overwrites. */
  type MessageTable = map<MessageKey, Stored>

  function ItemAt(table: MessageTable, key: MessageKey): MessageItem
    requires key in table
  {
    MessageItem(key.room, key.index, table[key].timestamp, table[key].username, table[key].content)
  }

  /** The sort keys present in one partition. */
  function RoomIndices(table: MessageTable, room: string): set<int>
  {
    set k | k in table && k.room == room :: k.index
  }

  lemma RoomIndicesMember(table: MessageTable, room: string, i: int)
    ensures i in RoomIndices(table, room) <==> MessageKey(room, i) in table
  {
    if MessageKey(room, i) in table {
      var k := MessageKey(room, i);
      assert k in table && k.room == room && k.index == i;
    }
  }

  lemma HasElement(s: set<int>)
    requires s != {}
    ensures exists y :: y in s
  {
    if forall y :: y !in s {
      assert false;
    }
  }

  /** m is the greatest element of s. */
  predicate IsMax(m: int, s: set<int>)
  {
    m in s && forall x :: x in s ==> x <= m
  }

  lemma {:induction false} HasMaximum(s: set<int>)
    requires s != {}
    ensures exists m :: IsMax(m, s)
  {
    HasElement(s);
    var y :| y in s;
    var rest := s - {y};
    if rest == {} {
      assert s == {y};
      assert IsMax(y, s);
    } else {
      HasMaximum(rest);
      var m :| IsMax(m, rest);
      var top := if y <= m then m else y;
      forall x | x in s ensures x <= top {
        if x != y {
          assert x in rest;
        }
      }
      assert IsMax(top, s);
    }
  }

  /** The greatest element of a non-empty set of indices. */
  function MaxOf(s: set<int>): (m: int)
    requires s != {}
    ensures m in s
    ensures forall x :: x in s ==> x <= m
  {
    HasMaximum(s);
    var m :| IsMax(m, s);
    m
  }

  /**
   * The at most n greatest elements of s, in descending order: the sort-key
   * order of a descending query with a limit.
   */
  function NewestFirst(s: set<int>, n: nat): (r: seq<int>)
    decreases n
    ensures |r| <= n
    ensures forall i :: 0 <= i < |r| ==> r[i] in s
    ensures forall i, j :: 0 <= i < j < |r| ==> r[i] > r[j]
    ensures |r| < n ==> forall x :: x in s ==> x in r
    ensures forall x, i :: x in s && x !in r && 0 <= i < |r| ==> x < r[i]
  {
    if n == 0 || s == {} then []
    else
      var m := MaxOf(s);
      [m] + NewestFirst(s - {m}, n - 1)
  }

  function IndexSet(items: seq<MessageItem>): set<int>
  {
    set it | it in items :: it.index
  }

  /**
   * `table.query(KeyConditionExpression="Room = :room", Limit=limit,
   * ScanIndexForward=False)["Items"]`.
   */
  function NewestMessages(table: MessageTable, room: string, limit: nat): (r: seq<MessageItem>)
    ensures |r| <= limit
  {
    var idx := NewestFirst(RoomIndices(table, room), limit);
    RoomIndicesOfRoom(table, room, idx);
    Fetch(table, room, idx)
  }

  lemma RoomIndicesOfRoom(table: MessageTable, room: string, idx: seq<int>)
    requires forall x :: x in idx ==> x in RoomIndices(table, room)
    ensures forall x :: x in idx ==> MessageKey(room, x) in table
  {
    forall x | x in idx ensures MessageKey(room, x) in table {
      RoomIndicesMember(table, room, x);
    }
  }

  /** Every item the query returns belongs to the room and is the item stored under its key. */
  lemma NewestMessagesStored(table: MessageTable, room: string, limit: nat)
    ensures forall it :: it in NewestMessages(table, room, limit) ==>
      it.room == room && it.Key() in table && table[it.Key()] == it.Attributes()
  {
  }

  /** The query returns items in strictly descending index order. */
  lemma NewestMessagesDescending(table: MessageTable, room: string, limit: nat)
    ensures var r := NewestMessages(table, room, limit);
      forall i, j :: 0 <= i < j < |r| ==> r[i].index > r[j].index
  {
  }

  /** A query that returns fewer than `limit` items returns the whole room. */
  lemma NewestMessagesComplete(table: MessageTable, room: string, limit: nat)
    ensures var r := NewestMessages(table, room, limit);
      |r| < limit ==> IndexSet(r) == RoomIndices(table, room)
  {
    var idx := NewestFirst(RoomIndices(table, room), limit);
    var r := NewestMessages(table, room, limit);
    FetchIndices(table, room, idx);
  }

  /** Every item of the room the query leaves out is older than every item it returns. */
  lemma NewestMessagesNewest(table: MessageTable, room: string, limit: nat)
    ensures var r := NewestMessages(table, room, limit);
      forall x, i :: x in RoomIndices(table, room) && x !in IndexSet(r) && 0 <= i < |r| ==> x < r[i].index
  {
    var idx := NewestFirst(RoomIndices(table, room), limit);
    FetchIndices(table, room, idx);
  }

  lemma FetchIndices(table: MessageTable, room: string, idx: seq<int>)
    requires forall x :: x in idx ==> MessageKey(room, x) in table
    ensures IndexSet(Fetch(table, room, idx)) == set x | x in idx
  {
    var r := Fetch(table, room, idx);
    forall x | x in idx ensures x in IndexSet(r) {
      var i :| 0 <= i < |idx| && idx[i] == x;
      assert r[i] in r;
    }
  }

  /** The items of one room at the given indices, in that order. */
  function Fetch(table: MessageTable, room: string, idx: seq<int>): (r: seq<MessageItem>)
    requires forall x :: x in idx ==> MessageKey(room, x) in table
    ensures |r| == |idx|
    ensures forall i :: 0 <= i < |idx| ==> r[i] == ItemAt(table, MessageKey(room, idx[i]))
  {
    if idx == [] then [] else [ItemAt(table, MessageKey(room, idx[0]))] + Fetch(table, room, idx[1..])
  }

  /** `{"username": x["Username"], "content": x["Content"]} for x in items`. */
  function Project(items: seq<MessageItem>): (r: seq<Summary>)
    ensures |r| == |items|
    ensures forall i :: 0 <= i < |items| ==> r[i] == Summary(items[i].username, items[i].content)
  {
    seq(|items|, i requires 0 <= i < |items| => Summary(items[i].username, items[i].content))
  }

  /** Projecting and reversing commute, so reversing the projected list in place sends the reversed history. */
  lemma ProjectReversed(items: seq<MessageItem>)
    ensures Project(Reversed(items)) == Reversed(Project(items))
  {
  }

  /** The history a client is sent: the newest RecentLimit items, oldest first. */
  function RecentHistory(table: MessageTable): (h: seq<MessageItem>)
    ensures |h| <= RecentLimit
  {
    Reversed(NewestMessages(table, GeneralRoom, RecentLimit))
  }

  /**
   * The recent history holds at most ten messages of room "general", each as
   * stored, in strictly ascending index order; every message of the room it
   * leaves out is older than all it holds, and it leaves none out when it
   * holds fewer than ten.
   */
  lemma RecentHistoryIsNewestAscending(table: MessageTable)
    ensures |RecentHistory(table)| <= RecentLimit
    ensures forall it :: it in RecentHistory(table) ==>
      it.room == GeneralRoom && it.Key() in table && table[it.Key()] == it.Attributes()
    ensures var h := RecentHistory(table);
      forall i, j :: 0 <= i < j < |h| ==> h[i].index < h[j].index
    ensures var h := RecentHistory(table);
      |h| < RecentLimit ==> IndexSet(h) == RoomIndices(table, GeneralRoom)
    ensures var h := RecentHistory(table);
      forall x, i :: x in RoomIndices(table, GeneralRoom) && x !in IndexSet(h) && 0 <= i < |h| ==> x < h[i].index
  {
    RecentHistoryStored(table);
    RecentHistoryAscending(table);
    RecentHistoryComplete(table);
    RecentHistoryNewest(table);
  }

  lemma RecentHistoryStored(table: MessageTable)
    ensures forall it :: it in RecentHistory(table) ==>
      it.room == GeneralRoom && it.Key() in table && table[it.Key()] == it.Attributes()
  {
    var d := NewestMessages(table, GeneralRoom, RecentLimit);
    NewestMessagesStored(table, GeneralRoom, RecentLimit);
    ReversedMembers(d);
  }

  lemma RecentHistoryAscending(table: MessageTable)
    ensures var h := RecentHistory(table);
      forall i, j :: 0 <= i < j < |h| ==> h[i].index < h[j].index
  {
    NewestMessagesDescending(table, GeneralRoom, RecentLimit);
    ReversedAscending(NewestMessages(table, GeneralRoom, RecentLimit));
  }

  lemma RecentHistoryComplete(table: MessageTable)
    ensures var h := RecentHistory(table);
      |h| < RecentLimit ==> IndexSet(h) == RoomIndices(table, GeneralRoom)
  {
    NewestMessagesComplete(table, GeneralRoom, RecentLimit);
    ReversedKeepsIndices(NewestMessages(table, GeneralRoom, RecentLimit));
  }

  lemma RecentHistoryNewest(table: MessageTable)
    ensures var h := RecentHistory(table);
      forall x, i :: x in RoomIndices(table, GeneralRoom) && x !in IndexSet(h) && 0 <= i < |h| ==> x < h[i].index
  {
    NewestMessagesNewest(table, GeneralRoom, RecentLimit);
    ReversedNewest(NewestMessages(table, GeneralRoom, RecentLimit), RoomIndices(table, GeneralRoom));
  }

  lemma ReversedMembers(d: seq<MessageItem>)
    ensures forall it :: it in Reversed(d) ==> it in d
  {
    forall it | it in Reversed(d) ensures it in d {
      var i :| 0 <= i < |d| && Reversed(d)[i] == it;
      assert d[|d| - 1 - i] == it;
    }
  }

  lemma ReversedAscending(d: seq<MessageItem>)
    requires forall i, j :: 0 <= i < j < |d| ==> d[i].index > d[j].index
    ensures var h := Reversed(d);
      forall i, j :: 0 <= i < j < |h| ==> h[i].index < h[j].index
  {
    var h := Reversed(d);
    var n := |d|;
    forall i, j | 0 <= i < j < n ensures h[i].index < h[j].index {
      assert h[i] == d[n - 1 - i] && h[j] == d[n - 1 - j];
    }
  }

  lemma ReversedNewest(d: seq<MessageItem>, s: set<int>)
    requires forall x, i :: x in s && x !in IndexSet(d) && 0 <= i < |d| ==> x < d[i].index
    ensures var h := Reversed(d);
      forall x, i :: x in s && x !in IndexSet(h) && 0 <= i < |h| ==> x < h[i].index
  {
    var h := Reversed(d);
    var n := |d|;
    ReversedKeepsIndices(d);
    forall x, i | x in s && x !in IndexSet(h) && 0 <= i < n ensures x < h[i].index {
      assert h[i] == d[n - 1 - i];
    }
  }

  lemma ReversedKeepsIndices(d: seq<MessageItem>)
    ensures IndexSet(Reversed(d)) == IndexSet(d)
  {
    var h := Reversed(d);
    forall x | x in IndexSet(d) ensures x in IndexSet(h) {
      var it :| it in d && it.index == x;
      var i :| 0 <= i < |d| && d[i] == it;
      assert h[|d| - 1 - i] == it;
    }
    forall x | x in IndexSet(h) ensures x in IndexSet(d) {
      var it :| it in h && it.index == x;
      var i :| 0 <= i < |h| && h[i] == it;
      assert d[|d| - 1 - i] == it;
    }
  }

  /**
   * The index `send_message` gives a new message: the index of the newest
   * message of room "general" plus one, or 0 when the room is empty. It is
   * therefore above every index the room holds.
   */
  function NextIndex(table: MessageTable): (n: int)
    ensures RoomIndices(table, GeneralRoom) == {} ==> n == 0
    ensures RoomIndices(table, GeneralRoom) != {} ==> n == MaxOf(RoomIndices(table, GeneralRoom)) + 1
    ensures forall x :: x in RoomIndices(table, GeneralRoom) ==> x < n
  {
    var newest := NewestMessages(table, GeneralRoom, 1);
    var s := RoomIndices(table, GeneralRoom);
    assert s != {} ==> NewestFirst(s, 1) == [MaxOf(s)] + NewestFirst(s - {MaxOf(s)}, 0);
    if |newest| > 0 then newest[0].index + 1 else 0
  }

  /** The item `send_message` stores: room "general", the next index. */
  function NewMessage(table: MessageTable, timestamp: int, username: string, content: string): (item: MessageItem)
    ensures item.room == GeneralRoom && item.index == NextIndex(table)
    ensures item.timestamp == timestamp && item.username == username && item.content == content
    ensures item.Key() !in table
  {
    RoomIndicesMember(table, GeneralRoom, NextIndex(table));
    MessageItem(GeneralRoom, NextIndex(table), timestamp, username, content)
  }

  /**
   * The new message's key is not yet in the table, so storing it adds exactly
   * one item and overwrites nothing, and its index exceeds every index of the room.
   */
  lemma NewMessageIsFresh(table: MessageTable, timestamp: int, username: string, content: string)
    ensures NewMessage(table, timestamp, username, content).Key() !in table
    ensures forall k :: k in table && k.room == GeneralRoom ==>
      k.index < NewMessage(table, timestamp, username, content).index
    ensures var item := NewMessage(table, timestamp, username, content);
      |table[item.Key() := item.Attributes()]| == |table| + 1
  {
    var item := NewMessage(table, timestamp, username, content);
    forall k | k in table && k.room == GeneralRoom ensures k.index < item.index {
      RoomIndicesMember(table, GeneralRoom, k.index);
    }
    RoomIndicesMember(table, GeneralRoom, item.index);
  }

  /** After storing the new message the next index has moved up by exactly one. */
  lemma StoringAdvancesIndex(table: MessageTable, timestamp: int, username: string, content: string)
    ensures var item := NewMessage(table, timestamp, username, content);
      NextIndex(table[item.Key() := item.Attributes()]) == NextIndex(table) + 1
  {
    var item := NewMessage(table, timestamp, username, content);
    var after := table[item.Key() := item.Attributes()];
    var n := NextIndex(table);
    var s := RoomIndices(table, GeneralRoom);
    var s' := RoomIndices(after, GeneralRoom);
    assert s' == s + {n} by {
      forall x ensures x in s' <==> x in s + {n} {
        RoomIndicesMember(table, GeneralRoom, x);
        RoomIndicesMember(after, GeneralRoom, x);
      }
    }
    assert IsMax(n, s');
  }

  /** The indices those successive stores are given, in order. */
  function AssignedIndices(table: MessageTable, posts: seq<Stored>): seq<int>
    decreases |posts|
  {
    if posts == [] then []
    else
      var item := NewMessage(table, posts[0].timestamp, posts[0].username, posts[0].content);
      [item.index] + AssignedIndices(table[item.Key() := item.Attributes()], posts[1..])
  }

  /**
   * Successive stores get consecutive indices starting at the next index:
   * unique, strictly increasing, and 0, 1, 2, ... from an empty room.
   */
  lemma {:induction false} SuccessiveStoresAreConsecutive(table: MessageTable, posts: seq<Stored>)
    ensures |AssignedIndices(table, posts)| == |posts|
    ensures forall i :: 0 <= i < |posts| ==> AssignedIndices(table, posts)[i] == NextIndex(table) + i
    decreases |posts|
  {
    if posts != [] {
      var p := posts[0];
      var item := NewMessage(table, p.timestamp, p.username, p.content);
      var after := table[item.Key() := item.Attributes()];
      StoringAdvancesIndex(table, p.timestamp, p.username, p.content);
      SuccessiveStoresAreConsecutive(after, posts[1..]);
    }
  }
}
