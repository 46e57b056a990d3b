/**
 * The `user_chat` table (one row per membership of a user in a chat room)
 * and the three queries of UserChatRepository the core relies on.
 */
module UserChatRepository {
  import opened JavaLang

  /** A membership row: `leavedAt` is null while the user is in the room. */
  datatype UserChat = UserChat(
    id: int,
    userId: int,
    chatRoomId: int,
    leavedAt: Option<int>,
    lastMessageId: Option<int>)

  /** `uc.chatRoom.id = :chatRoomId AND uc.leavedAt IS NULL` */
  predicate IsActiveIn(row: UserChat, chatRoomId: int)
  {
    row.chatRoomId == chatRoomId && row.leavedAt.None?
  }

  /** The full WHERE clause of the pointer update. */
  predicate NeedsPointer(row: UserChat, chatRoomId: int, messageId: int)
  {
    IsActiveIn(row, chatRoomId) && (row.lastMessageId.None? || row.lastMessageId.value < messageId)
  }

  /** SQL order on a nullable `lastMessageId`: NULL sorts below every id. */
  predicate PointerLe(a: Option<int>, b: Option<int>)
  {
    a.None? || (b.Some? && a.value <= b.value)
  }

  function WithPointer(row: UserChat, chatRoomId: int, messageId: int): UserChat
  {
    if NeedsPointer(row, chatRoomId, messageId) then row.(lastMessageId := Some(messageId)) else row
  }

  /** The table after `updateLastMessageIdForChat(chatRoomId, messageId)`. */
  function PointerUpdated(rows: seq<UserChat>, chatRoomId: int, messageId: int): seq<UserChat>
  {
    seq(|rows|, i requires 0 <= i < |rows| => WithPointer(rows[i], chatRoomId, messageId))
  }

  /** How many rows the WHERE clause selects. */
  function CountNeedingPointer(rows: seq<UserChat>, chatRoomId: int, messageId: int): nat
  {
    if |rows| == 0 then 0
    else
      CountNeedingPointer(rows[..|rows| - 1], chatRoomId, messageId)
      + (if NeedsPointer(rows[|rows| - 1], chatRoomId, messageId) then 1 else 0)
  }

  // -----------------------------------------------------------------------
  // Properties of the pointer update

  /**
   * A row changes exactly when the WHERE clause selects it; a changed row
   * holds exactly `messageId`, every other field is kept, and the pointer
   * never moves backwards.
   */
  lemma PointerUpdateRow(rows: seq<UserChat>, chatRoomId: int, messageId: int, i: int)
    requires 0 <= i < |rows|
    ensures var r := PointerUpdated(rows, chatRoomId, messageId)[i];
      && (r != rows[i] <==> NeedsPointer(rows[i], chatRoomId, messageId))
      && (r != rows[i] ==> r.lastMessageId == Some(messageId))
      && r.(lastMessageId := rows[i].lastMessageId) == rows[i]
      && PointerLe(rows[i].lastMessageId, r.lastMessageId)
      && (!IsActiveIn(rows[i], chatRoomId) ==> r == rows[i])
  {
  }

  /** The count the update returns is the number of rows it changed. */
  lemma {:induction false} CountIsChangedRows(rows: seq<UserChat>, chatRoomId: int, messageId: int)
    ensures CountNeedingPointer(rows, chatRoomId, messageId)
         == |set i | 0 <= i < |rows| && PointerUpdated(rows, chatRoomId, messageId)[i] != rows[i]|
  {
    var after := PointerUpdated(rows, chatRoomId, messageId);
    var changed := set i | 0 <= i < |rows| && after[i] != rows[i];
    if |rows| == 0 {
      assert changed == {};
    } else {
      var n := |rows| - 1;
      var init := rows[..n];
      CountIsChangedRows(init, chatRoomId, messageId);
      var initAfter := PointerUpdated(init, chatRoomId, messageId);
      var initChanged := set i | 0 <= i < n && initAfter[i] != init[i];
      assert forall i :: 0 <= i < n ==> initAfter[i] == after[i] && init[i] == rows[i];
      assert initChanged == set i | 0 <= i < n && after[i] != rows[i];
      PointerUpdateRow(rows, chatRoomId, messageId, n);
      if NeedsPointer(rows[n], chatRoomId, messageId) {
        assert changed == initChanged + {n};
      } else {
        assert changed == initChanged;
      }
    }
  }

  /** Repeating the update with the same arguments changes nothing and reports 0. */
  lemma {:induction false} PointerUpdateIdempotent(rows: seq<UserChat>, chatRoomId: int, messageId: int)
    ensures var once := PointerUpdated(rows, chatRoomId, messageId);
      PointerUpdated(once, chatRoomId, messageId) == once
      && CountNeedingPointer(once, chatRoomId, messageId) == 0
  {
    var once := PointerUpdated(rows, chatRoomId, messageId);
    if |rows| > 0 {
      var n := |rows| - 1;
      PointerUpdateIdempotent(rows[..n], chatRoomId, messageId);
      assert once[..n] == PointerUpdated(rows[..n], chatRoomId, messageId);
      assert !NeedsPointer(once[n], chatRoomId, messageId);
    }
  }

  // -----------------------------------------------------------------------
  // The finders

  /** `findActiveByChatRoomWithUser`: the room's rows whose `leavedAt` is null, in table order. */
  function FindActiveByChatRoomWithUser(rows: seq<UserChat>, chatRoomId: int): (r: seq<UserChat>)
    ensures |r| <= |rows|
    ensures forall x :: x in r <==> x in rows && IsActiveIn(x, chatRoomId)
  {
    if |rows| == 0 then []
    else
      var rest := FindActiveByChatRoomWithUser(rows[1..], chatRoomId);
      assert forall x :: x in rows <==> x == rows[0] || x in rows[1..];
      if IsActiveIn(rows[0], chatRoomId) then [rows[0]] + rest else rest
  }

  function RowsOfUser(rows: seq<UserChat>, userId: int): (r: seq<UserChat>)
    ensures multiset(r) <= multiset(rows)
    ensures forall x :: x in r <==> x in rows && x.userId == userId
  {
    if |rows| == 0 then []
    else
      var rest := RowsOfUser(rows[1..], userId);
      assert rows == [rows[0]] + rows[1..];
      if rows[0].userId == userId then [rows[0]] + rest else rest
  }

  predicate SortedByPointerDesc(s: seq<UserChat>)
  {
    forall i, j :: 0 <= i < j < |s| ==> PointerLe(s[j].lastMessageId, s[i].lastMessageId)
  }

  function InsertByPointerDesc(x: UserChat, s: seq<UserChat>): (r: seq<UserChat>)
    requires SortedByPointerDesc(s)
    ensures SortedByPointerDesc(r)
    ensures multiset(r) == multiset(s) + multiset{x}
  {
    if |s| == 0 then [x]
    else if PointerLe(s[0].lastMessageId, x.lastMessageId) then [x] + s
    else
      var rest := InsertByPointerDesc(x, s[1..]);
      assert s == [s[0]] + s[1..];
      HeadBound(s[0], x, s[1..], rest);
      [s[0]] + rest
  }

  /** Every element of `rest` (a permutation of `tail` plus `x`) is below `head`. */
  lemma HeadBound(head: UserChat, x: UserChat, tail: seq<UserChat>, rest: seq<UserChat>)
    requires PointerLe(x.lastMessageId, head.lastMessageId)
    requires forall j :: 0 <= j < |tail| ==> PointerLe(tail[j].lastMessageId, head.lastMessageId)
    requires multiset(rest) == multiset(tail) + multiset{x}
    ensures forall j :: 0 <= j < |rest| ==> PointerLe(rest[j].lastMessageId, head.lastMessageId)
  {
    forall j | 0 <= j < |rest|
      ensures PointerLe(rest[j].lastMessageId, head.lastMessageId)
    {
      assert rest[j] in multiset(rest);
      if rest[j] != x {
        assert rest[j] in multiset(tail);
        assert rest[j] in tail;
      }
    }
  }

  function SortByPointerDesc(s: seq<UserChat>): (r: seq<UserChat>)
    ensures SortedByPointerDesc(r)
    ensures multiset(r) == multiset(s)
  {
    if |s| == 0 then []
    else
      assert s == [s[0]] + s[1..];
      InsertByPointerDesc(s[0], SortByPointerDesc(s[1..]))
  }

  /**
   * `findByUserIdOrderByLastMessageIdDesc`: exactly the user's rows (as a
   * multiset), most recent pointer first, rows without a pointer last. The
   * query leaves ties unordered; this model breaks them by table order.
   */
  function FindByUserIdOrderByLastMessageIdDesc(rows: seq<UserChat>, userId: int): (r: seq<UserChat>)
    ensures SortedByPointerDesc(r)
    ensures multiset(r) == multiset(RowsOfUser(rows, userId))
    ensures forall x :: x in r <==> x in rows && x.userId == userId
  {
    var mine := RowsOfUser(rows, userId);
    var r := SortByPointerDesc(mine);
    assert forall x :: x in r <==> x in multiset(mine);
    r
  }

  // -----------------------------------------------------------------------
  // The table, updated in place

  class UserChatTable {
    var rows: seq<UserChat>

    constructor (initial: seq<UserChat>)
      ensures rows == initial
    {
      rows := initial;
    }

    /**
     * `updateLastMessageIdForChat`: a bulk UPDATE that sets the pointer of
     * every active row of the room whose pointer is null or smaller, and
     * returns the number of rows it changed.
     */
    method UpdateLastMessageIdForChat(chatRoomId: int, messageId: int) returns (count: nat)
      modifies this
      ensures rows == PointerUpdated(old(rows), chatRoomId, messageId)
      ensures count == CountNeedingPointer(old(rows), chatRoomId, messageId)
    {
      count := 0;
      var i := 0;
      while i < |rows|
        invariant 0 <= i <= |rows| == |old(rows)|
        invariant rows[..i] == PointerUpdated(old(rows)[..i], chatRoomId, messageId)
        invariant rows[i..] == old(rows)[i..]
        invariant count == CountNeedingPointer(old(rows)[..i], chatRoomId, messageId)
      {
        assert old(rows)[..i + 1][..i] == old(rows)[..i];
        var row := rows[i];
        if NeedsPointer(row, chatRoomId, messageId) {
          rows := rows[i := row.(lastMessageId := Some(messageId))];
          count := count + 1;
        }
        i := i + 1;
      }
      assert old(rows)[..i] == old(rows);
    }
  }
}
