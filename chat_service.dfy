/**
 * ChatService: chat rooms are identified by a key derived from their
 * member set. `normalizeUserIds` drops nulls, duplicates and order; the raw
 * key is the normalised ids joined with `_`; the stored key is its SHA-256
 * digest in hex, a function parameter here (`digest`). Creating a room
 * reuses the room whose key matches; leaving one recomputes its key from
 * the members still active.
 */
module ChatService {
  import opened JavaLang
  import opened UserChatRepository

  // ---------------------------------------------------------------------
  // normalizeUserIds

  predicate StrictlyIncreasing(s: seq<int>)
  {
    forall i, j :: 0 <= i < j < |s| ==> s[i] < s[j]
  }

  /** `x` placed into a strictly increasing list, unless it is there already. */
  function InsertSorted(x: int, s: seq<int>): (r: seq<int>)
    requires StrictlyIncreasing(s)
    ensures StrictlyIncreasing(r)
    ensures forall y :: y in r <==> y == x || y in s
  {
    if |s| == 0 then [x]
    else if x < s[0] then [x] + s
    else if x == s[0] then s
    else
      var rest := InsertSorted(x, s[1..]);
      assert forall y :: y in s[1..] ==> s[0] < y;
      assert forall k :: 0 <= k < |rest| ==> s[0] < rest[k] by {
        forall k | 0 <= k < |rest| ensures s[0] < rest[k] {
          assert rest[k] in rest;
        }
      }
      var r := [s[0]] + rest;
      assert forall i, j :: 0 <= i < j < |r| ==> r[i] < r[j] by {
        forall i, j | 0 <= i < j < |r| ensures r[i] < r[j] {
          if i > 0 {
            assert r[i] == rest[i - 1] && r[j] == rest[j - 1];
          }
        }
      }
      r
  }

  /**
   * `normalizeUserIds`: the non-null ids, each once, in ascending order.
   * The list holds exactly the ids that occur in the input.
   */
  function NormalizeUserIds(ids: seq<Option<int>>): (r: seq<int>)
    ensures StrictlyIncreasing(r)
    ensures forall y :: y in r <==> Some(y) in ids
  {
    if |ids| == 0 then []
    else
      var n := |ids| - 1;
      var rest := NormalizeUserIds(ids[..n]);
      assert ids == ids[..n] + [ids[n]];
      if ids[n].None? then rest else InsertSorted(ids[n].value, rest)
  }

  /** A `List<Long>` of non-null ids, as `createChatKey` receives it. */
  function Lift(ids: seq<int>): (r: seq<Option<int>>)
    ensures |r| == |ids| && forall i :: 0 <= i < |ids| ==> r[i] == Some(ids[i])
  {
    seq(|ids|, i requires 0 <= i < |ids| => Some(ids[i]))
  }

  /** Two strictly increasing lists with the same elements are the same list. */
  lemma {:induction false} SortedUnique(a: seq<int>, b: seq<int>)
    requires StrictlyIncreasing(a) && StrictlyIncreasing(b)
    requires forall y :: y in a <==> y in b
    ensures a == b
    decreases |a|
  {
    assert |a| > 0 ==> a[0] in a;
    assert |b| > 0 ==> b[0] in b;
    if |a| > 0 && |b| > 0 {
      assert a[0] == b[0] by {
        assert a[0] in b && b[0] in a;
        var i :| 0 <= i < |b| && b[i] == a[0];
        var j :| 0 <= j < |a| && a[j] == b[0];
        assert b[0] <= b[i] && a[0] <= a[j];
      }
      forall y ensures y in a[1..] <==> y in b[1..] {
        TailMember(a, b, y);
        TailMember(b, a, y);
      }
      SortedUnique(a[1..], b[1..]);
      assert a == [a[0]] + a[1..] && b == [b[0]] + b[1..];
    }
  }

  lemma TailMember(a: seq<int>, b: seq<int>, y: int)
    requires StrictlyIncreasing(a) && StrictlyIncreasing(b) && |a| > 0 && |b| > 0 && a[0] == b[0]
    requires forall y :: y in a <==> y in b
    ensures y in a[1..] ==> y in b[1..]
  {
    if y in a[1..] {
      var i :| 0 <= i < |a| - 1 && a[1..][i] == y;
      assert a[0] < a[i + 1];
      assert y in a;
      var j :| 0 <= j < |b| && b[j] == y;
      assert j != 0;
      assert b[1..][j - 1] == y;
    }
  }

  /** The normalised list depends only on the set of non-null ids: order and repetition do not matter. */
  lemma NormalizeDependsOnSet(x: seq<Option<int>>, y: seq<Option<int>>)
    requires forall v :: Some(v) in x <==> Some(v) in y
    ensures NormalizeUserIds(x) == NormalizeUserIds(y)
  {
    SortedUnique(NormalizeUserIds(x), NormalizeUserIds(y));
  }

  /** Normalising a normalised list changes nothing. */
  lemma NormalizeIdempotent(ids: seq<Option<int>>)
    ensures NormalizeUserIds(Lift(NormalizeUserIds(ids))) == NormalizeUserIds(ids)
  {
    var once := NormalizeUserIds(ids);
    forall v ensures Some(v) in Lift(once) <==> v in once {
      if Some(v) in Lift(once) {
        var i :| 0 <= i < |once| && Lift(once)[i] == Some(v);
      }
      if v in once {
        var i :| 0 <= i < |once| && once[i] == v;
        assert Lift(once)[i] == Some(v);
      }
    }
    SortedUnique(NormalizeUserIds(Lift(once)), once);
  }

  // ---------------------------------------------------------------------
  // The chat key

  function Shows(ids: seq<int>): (r: seq<string>)
    ensures |r| == |ids| && forall i :: 0 <= i < |ids| ==> r[i] == Show(ids[i])
  {
    seq(|ids|, i requires 0 <= i < |ids| => Show(ids[i]))
  }

  /** The raw key of `createChatKey`: the normalised ids in decimal, joined with `_`. */
  function RawKey(ids: seq<Option<int>>): (key: string)
    ensures key == [] <==> NormalizeUserIds(ids) == []
    ensures key != [] ==> Split(key, '_') == Shows(NormalizeUserIds(ids))
  {
    var sorted := NormalizeUserIds(ids);
    if |sorted| == 0 then
      JoinWith(Shows(sorted), "_")
    else
      ShowsSplitBack(sorted);
      JoinWith(Shows(sorted), "_")
  }

  lemma {:induction false} JoinWithIsJoin(parts: seq<string>, sep: char)
    requires |parts| > 0
    ensures JoinWith(parts, [sep]) == Join(parts, sep)
    decreases |parts|
  {
    if |parts| > 1 {
      JoinWithIsJoin(parts[1..], sep);
    }
  }

  /** Joined decimal renderings of a non-empty list split back into them. */
  lemma ShowsSplitBack(ids: seq<int>)
    requires |ids| > 0
    ensures Split(RawJoin(ids), '_') == Shows(ids)
    ensures RawJoin(ids) != []
  {
    var parts := Shows(ids);
    forall i | 0 <= i < |parts| ensures '_' !in parts[i] {
      ShowHasNoChar(ids[i], '_');
    }
    JoinWithIsJoin(parts, '_');
    SplitJoin(parts, '_');
    assert Split([], '_') == [[]];
  }

  function RawJoin(ids: seq<int>): string
  {
    JoinWith(Shows(ids), "_")
  }

  /** Distinct lists of ids have distinct raw keys. */
  lemma RawJoinInjective(a: seq<int>, b: seq<int>)
    requires RawJoin(a) == RawJoin(b)
    ensures a == b
  {
    if |a| > 0 && |b| > 0 {
      ShowsSplitBack(a);
      ShowsSplitBack(b);
      assert Shows(a) == Shows(b);
      forall i | 0 <= i < |a| ensures a[i] == b[i] {
        assert Shows(a)[i] == Shows(b)[i];
        ShowInjective(a[i], b[i]);
      }
    } else if |a| > 0 {
      ShowsSplitBack(a);
    } else if |b| > 0 {
      ShowsSplitBack(b);
    }
  }

  /**
   * Two id lists have the same raw key exactly when they name the same
   * users: the key ignores order, repetition and nulls, and tells member
   * sets apart.
   */
  lemma RawKeyIdentifiesMembers(x: seq<Option<int>>, y: seq<Option<int>>)
    ensures RawKey(x) == RawKey(y) <==> forall v :: Some(v) in x <==> Some(v) in y
  {
    if RawKey(x) == RawKey(y) {
      RawJoinInjective(NormalizeUserIds(x), NormalizeUserIds(y));
    }
    if forall v :: Some(v) in x <==> Some(v) in y {
      NormalizeDependsOnSet(x, y);
    }
  }

  // ---------------------------------------------------------------------
  // Chat type

  datatype ChatType = DIRECT | GROUP | IM

  /** The type a new room gets from the number of distinct users. */
  function ChatTypeOf(size: nat): (t: ChatType)
    ensures t == IM <==> size == 1
    ensures t == DIRECT <==> size == 2
    ensures t == GROUP <==> size == 0 || size >= 3
  {
    if size == 1 then IM else if size == 2 then DIRECT else GROUP
  }

  /** The ids `createChatRoom` works with: the requested ones plus the creator, normalised. */
  function RoomMembers(requested: seq<Option<int>>, currentUserId: int): (ids: seq<int>)
    ensures StrictlyIncreasing(ids) && currentUserId in ids
    ensures forall v :: v in ids <==> v == currentUserId || Some(v) in requested
  {
    assert Some(currentUserId) in requested + [Some(currentUserId)];
    assert forall v :: Some(v) in requested + [Some(currentUserId)] <==> v == currentUserId || Some(v) in requested;
    NormalizeUserIds(requested + [Some(currentUserId)])
  }

  /** Every id of a strictly increasing list is a different id. */
  lemma {:induction false} DistinctCount(s: seq<int>)
    requires StrictlyIncreasing(s)
    ensures |set x | x in s| == |s|
  {
    if |s| > 0 {
      DistinctCount(s[1..]);
      assert forall y :: y in s[1..] ==> s[0] < y;
      assert (set x | x in s) == {s[0]} + (set x | x in s[1..]);
    }
  }

  /**
   * A created room is IM exactly when the creator asked only for
   * themselves.
   */
  lemma CreatedRoomIsIm(requested: seq<Option<int>>, currentUserId: int)
    ensures ChatTypeOf(|RoomMembers(requested, currentUserId)|) == IM
        <==> forall v :: Some(v) in requested ==> v == currentUserId
  {
    var ids := RoomMembers(requested, currentUserId);
    DistinctCount(ids);
    if forall v :: Some(v) in requested ==> v == currentUserId {
      assert (set x | x in ids) == {currentUserId};
    }
    if |ids| == 1 {
      assert ids == [ids[0]];
    }
  }

  /** With one other requested user, the room is DIRECT exactly when nobody else was asked for. */
  lemma CreatedRoomIsDirect(requested: seq<Option<int>>, currentUserId: int, other: int)
    requires other != currentUserId && Some(other) in requested
    ensures ChatTypeOf(|RoomMembers(requested, currentUserId)|) == DIRECT
        <==> forall v :: Some(v) in requested ==> v == currentUserId || v == other
  {
    var ids := RoomMembers(requested, currentUserId);
    DistinctCount(ids);
    if forall v :: Some(v) in requested ==> v == currentUserId || v == other {
      assert (set x | x in ids) == {currentUserId, other};
    }
    if |ids| == 2 {
      assert {currentUserId, other} <= (set x | x in ids);
      assert |{currentUserId, other}| == 2;
      assert (set x | x in ids) == {currentUserId, other};
    }
  }

  /** With two other distinct requested users, the room is a GROUP. */
  lemma CreatedRoomIsGroup(requested: seq<Option<int>>, currentUserId: int, a: int, b: int)
    requires a != currentUserId && b != currentUserId && a != b
    requires Some(a) in requested && Some(b) in requested
    ensures ChatTypeOf(|RoomMembers(requested, currentUserId)|) == GROUP
  {
    var ids := RoomMembers(requested, currentUserId);
    DistinctCount(ids);
    assert {currentUserId, a, b} <= (set x | x in ids);
    assert |{currentUserId, a, b}| == 3;
  }

  /** The key `createChatRoom` looks up is the same for any request naming the same users. */
  lemma SameMembersSameKey(requested1: seq<Option<int>>, currentUserId1: int, requested2: seq<Option<int>>, currentUserId2: int)
    requires forall v :: (v == currentUserId1 || Some(v) in requested1) <==> (v == currentUserId2 || Some(v) in requested2)
    ensures RawKey(Lift(RoomMembers(requested1, currentUserId1))) == RawKey(Lift(RoomMembers(requested2, currentUserId2)))
  {
    var ids1, ids2 := RoomMembers(requested1, currentUserId1), RoomMembers(requested2, currentUserId2);
    SortedUnique(ids1, ids2);
  }

  // ---------------------------------------------------------------------
  // Rooms, memberships and read status

  datatype Room = Room(chatType: ChatType, chatKey: string)

  /** A `read_status` row; a new one has no last-read message. */
  datatype ReadStatus = ReadStatus(userId: int, chatRoomId: int, lastReadMessageId: Option<int>)

  datatype ChatResponse = ChatResponse(id: int, chatType: ChatType)

  /**
   * The exceptions of the three operations. `NonUniqueResult` is Spring
   * Data's answer when a single-result query matches several rows.
   */
  datatype ChatError =
    | UserNotFound(userId: int)
    | ChatRoomNotFound(chatRoomId: int)
    | UserNotJoined(chatRoomId: int, userId: int)
    | NonUniqueResult

  datatype Result<T> = Ok(value: T) | Err(error: ChatError)

  /** `findChatRoomByChatKey`: the ids of the rooms holding `key`. */
  function RoomsWithKey(rooms: map<int, Room>, key: string): (ids: set<int>)
    ensures forall id :: id in ids <==> id in rooms && rooms[id].chatKey == key
  {
    set id | id in rooms && rooms[id].chatKey == key
  }

  /** The membership rows of a new room, one per id, with consecutive row ids. */
  function Memberships(ids: seq<int>, roomId: int, firstRowId: int): (rows: seq<UserChat>)
    ensures |rows| == |ids|
    ensures forall i :: 0 <= i < |ids| ==> rows[i] == UserChat(firstRowId + i, ids[i], roomId, None, None)
    ensures forall i :: 0 <= i < |rows| ==> IsActiveIn(rows[i], roomId) && rows[i].lastMessageId.None?
    ensures StrictlyIncreasing(ids) ==> forall i, j :: 0 <= i < j < |rows| ==> rows[i].userId != rows[j].userId
  {
    seq(|ids|, i requires 0 <= i < |ids| => UserChat(firstRowId + i, ids[i], roomId, None, None))
  }

  /** The read-status rows of a new room, one per id, none read yet. */
  function ReadStatuses(ids: seq<int>, roomId: int): (rs: seq<ReadStatus>)
    ensures |rs| == |ids|
    ensures forall i :: 0 <= i < |ids| ==> rs[i] == ReadStatus(ids[i], roomId, None)
  {
    seq(|ids|, i requires 0 <= i < |ids| => ReadStatus(ids[i], roomId, None))
  }

  /** The position of the first id that is not a user, or `|ids|`. */
  function FirstUnknown(ids: seq<int>, users: set<int>): (k: nat)
    ensures k <= |ids|
    ensures k < |ids| ==> ids[k] !in users
    ensures forall j :: 0 <= j < k ==> ids[j] in users
  {
    if |ids| == 0 then 0
    else if ids[0] !in users then 0
    else 1 + FirstUnknown(ids[1..], users)
  }

  /** `findByUserAndChatRoom`: the positions of the user's rows for the room, left or not. */
  function MembershipRows(rows: seq<UserChat>, userId: int, chatRoomId: int): (ks: set<int>)
    ensures forall k :: k in ks <==> 0 <= k < |rows| && rows[k].userId == userId && rows[k].chatRoomId == chatRoomId
  {
    set k | 0 <= k < |rows| && rows[k].userId == userId && rows[k].chatRoomId == chatRoomId
  }

  /** The ids of the room's active members, one per active row, in table order. */
  function ActiveUserIds(rows: seq<UserChat>, chatRoomId: int): (ids: seq<Option<int>>)
    ensures forall u :: Some(u) in ids <==> exists i :: 0 <= i < |rows| && rows[i].userId == u && IsActiveIn(rows[i], chatRoomId)
  {
    if |rows| == 0 then []
    else
      var n := |rows| - 1;
      var init := ActiveUserIds(rows[..n], chatRoomId);
      assert forall i :: 0 <= i < n ==> rows[..n][i] == rows[i];
      init + (if IsActiveIn(rows[n], chatRoomId) then [Some(rows[n].userId)] else [])
  }

  /** An active row appended to the table is the last active row of its room. */
  lemma {:induction false} FindActiveAppend(rows: seq<UserChat>, row: UserChat)
    requires IsActiveIn(row, row.chatRoomId)
    ensures FindActiveByChatRoomWithUser(rows + [row], row.chatRoomId)
         == FindActiveByChatRoomWithUser(rows, row.chatRoomId) + [row]
  {
    if |rows| > 0 {
      assert (rows + [row])[1..] == rows[1..] + [row];
      FindActiveAppend(rows[1..], row);
    }
  }

  function HasReadStatus(statuses: seq<ReadStatus>, userId: int, chatRoomId: int): bool
  {
    exists i :: 0 <= i < |statuses| && statuses[i].userId == userId && statuses[i].chatRoomId == chatRoomId
  }

  /**
   * The chat tables ChatService writes: the users that exist, the rooms,
   * the `user_chat` table and the read-status rows, with the identity
   * counters the database assigns from.
   */
  class ChatStore {
    const users: set<int>
    /** SHA-256 of the raw key, in hex. */
    const digest: string -> string
    const table: UserChatTable
    var rooms: map<int, Room>
    var nextRoomId: int
    var nextRowId: int
    var readStatuses: seq<ReadStatus>

    constructor (users: set<int>, digest: string -> string, table: UserChatTable)
      ensures this.users == users && this.digest == digest && this.table == table
      ensures rooms == map[] && readStatuses == [] && nextRoomId == 1 && nextRowId == 1
    {
      this.users := users;
      this.digest := digest;
      this.table := table;
      rooms := map[];
      nextRoomId := 1;
      nextRowId := 1;
      readStatuses := [];
    }

    /** The chat key of a normalised member list: the digest of its raw key. */
    function KeyOf(ids: seq<int>): string
    {
      digest(RawKey(Lift(ids)))
    }

    /**
     * `createChatRoom`: add the creator, normalise, and return the room
     * with the same key if there is one; otherwise create the room with
     * the type its size gives and one membership and one read-status row
     * per user. An unknown user rolls the transaction back; the identity
     * values already drawn stay used.
     */
    method CreateChatRoom(currentUserId: int, requested: seq<Option<int>>) returns (r: Result<ChatResponse>)
      modifies this, table
      ensures var found := RoomsWithKey(old(rooms), KeyOf(RoomMembers(requested, currentUserId)));
        |found| > 0 ==>
          && (|found| > 1 ==> r == Err(NonUniqueResult))
          && (|found| == 1 ==> r.Ok? && r.value.id in found && r.value.chatType == old(rooms)[r.value.id].chatType)
          && rooms == old(rooms) && table.rows == old(table.rows) && readStatuses == old(readStatuses)
          && nextRoomId == old(nextRoomId) && nextRowId == old(nextRowId)
      ensures var ids := RoomMembers(requested, currentUserId);
        var k := FirstUnknown(ids, users);
        RoomsWithKey(old(rooms), KeyOf(ids)) == {} && k < |ids| ==>
          && r == Err(UserNotFound(ids[k]))
          && rooms == old(rooms) && table.rows == old(table.rows) && readStatuses == old(readStatuses)
          && nextRoomId == old(nextRoomId) + 1 && nextRowId == old(nextRowId) + k
      ensures var ids := RoomMembers(requested, currentUserId);
        RoomsWithKey(old(rooms), KeyOf(ids)) == {} && FirstUnknown(ids, users) == |ids| ==>
          && r == Ok(ChatResponse(old(nextRoomId), ChatTypeOf(|ids|)))
          && rooms == old(rooms)[old(nextRoomId) := Room(ChatTypeOf(|ids|), KeyOf(ids))]
          && table.rows == old(table.rows) + Memberships(ids, old(nextRoomId), old(nextRowId))
          && readStatuses == old(readStatuses) + ReadStatuses(ids, old(nextRoomId))
          && nextRoomId == old(nextRoomId) + 1 && nextRowId == old(nextRowId) + |ids|
    {
      var ids := RoomMembers(requested, currentUserId);
      var key := KeyOf(ids);
      var found := RoomsWithKey(rooms, key);
      if |found| > 1 {
        return Err(NonUniqueResult);
      }
      if |found| == 1 {
        EmptyOrHasElement(found);
        var id :| id in found;
        return Ok(ChatResponse(id, rooms[id].chatType));
      }
      r := CreateNewRoom(ids, key);
    }

    /**
     * The creating branch of `createChatRoom`: draw a room id, save the
     * room of the size's type with `key`, then the members; an unknown
     * user rolls back everything but the identity values drawn.
     */
    method CreateNewRoom(ids: seq<int>, key: string) returns (r: Result<ChatResponse>)
      modifies this, table
      ensures var k := FirstUnknown(ids, users);
        k < |ids| ==>
          && r == Err(UserNotFound(ids[k]))
          && rooms == old(rooms) && table.rows == old(table.rows) && readStatuses == old(readStatuses)
          && nextRoomId == old(nextRoomId) + 1 && nextRowId == old(nextRowId) + k
      ensures FirstUnknown(ids, users) == |ids| ==>
          && r == Ok(ChatResponse(old(nextRoomId), ChatTypeOf(|ids|)))
          && rooms == old(rooms)[old(nextRoomId) := Room(ChatTypeOf(|ids|), key)]
          && table.rows == old(table.rows) + Memberships(ids, old(nextRoomId), old(nextRowId))
          && readStatuses == old(readStatuses) + ReadStatuses(ids, old(nextRoomId))
          && nextRoomId == old(nextRoomId) + 1 && nextRowId == old(nextRowId) + |ids|
    {
      var rooms0, rows0, statuses0 := rooms, table.rows, readStatuses;
      var roomId := nextRoomId;
      var room := Room(ChatTypeOf(|ids|), key);
      rooms := rooms[roomId := room];
      nextRoomId := nextRoomId + 1;
      var k := AddMembers(ids, roomId);
      if k < |ids| {
        rooms, table.rows, readStatuses := rooms0, rows0, statuses0;
        return Err(UserNotFound(ids[k]));
      }
      assert ids[..k] == ids;
      r := Ok(ChatResponse(roomId, room.chatType));
    }

    /**
     * The membership loop of `createChatRoom`: for each id in order, stop
     * at the first that is not a user, otherwise save its membership and
     * read-status rows. Returns how many were saved.
     */
    method AddMembers(ids: seq<int>, roomId: int) returns (k: nat)
      modifies this`nextRowId, this`readStatuses, table
      ensures k == FirstUnknown(ids, users)
      ensures table.rows == old(table.rows) + Memberships(ids[..k], roomId, old(nextRowId))
      ensures readStatuses == old(readStatuses) + ReadStatuses(ids[..k], roomId)
      ensures nextRowId == old(nextRowId) + k
    {
      ghost var rows0, statuses0, firstRowId := table.rows, readStatuses, nextRowId;
      k := 0;
      while k < |ids|
        invariant 0 <= k <= |ids|
        invariant forall j :: 0 <= j < k ==> ids[j] in users
        invariant table.rows == rows0 + Memberships(ids[..k], roomId, firstRowId)
        invariant readStatuses == statuses0 + ReadStatuses(ids[..k], roomId)
        invariant nextRowId == firstRowId + k
      {
        if ids[k] !in users {
          return;
        }
        var row := UserChat(nextRowId, ids[k], roomId, None, None);
        MembershipsStep(ids, k, roomId, firstRowId);
        table.rows := table.rows + [row];
        readStatuses := readStatuses + [ReadStatus(ids[k], roomId, None)];
        nextRowId := nextRowId + 1;
        k := k + 1;
      }
    }

    /**
     * `joinChatRoom`: add an active membership row, and a read-status row
     * if the user has none for the room. There is no check for an
     * existing membership, and the room's key is left as it was.
     */
    method JoinChatRoom(chatId: int, userId: int) returns (r: Result<()>)
      modifies this, table
      ensures userId !in users ==> r == Err(UserNotFound(userId))
      ensures userId in users && chatId !in old(rooms) ==> r == Err(ChatRoomNotFound(chatId))
      ensures r.Err? ==> table.rows == old(table.rows) && readStatuses == old(readStatuses) && nextRowId == old(nextRowId)
      ensures userId in users && chatId in old(rooms) ==>
        var row := UserChat(old(nextRowId), userId, chatId, None, None);
        && r == Ok(())
        && table.rows == old(table.rows) + [row]
        && FindActiveByChatRoomWithUser(table.rows, chatId) == FindActiveByChatRoomWithUser(old(table.rows), chatId) + [row]
        && readStatuses == old(readStatuses)
             + (if HasReadStatus(old(readStatuses), userId, chatId) then [] else [ReadStatus(userId, chatId, None)])
        && HasReadStatus(readStatuses, userId, chatId)
        && nextRowId == old(nextRowId) + 1
      ensures rooms == old(rooms) && nextRoomId == old(nextRoomId)
    {
      if userId !in users {
        return Err(UserNotFound(userId));
      }
      if chatId !in rooms {
        return Err(ChatRoomNotFound(chatId));
      }
      var row := UserChat(nextRowId, userId, chatId, None, None);
      FindActiveAppend(table.rows, row);
      table.rows := table.rows + [row];
      nextRowId := nextRowId + 1;
      if !HasReadStatus(readStatuses, userId, chatId) {
        readStatuses := readStatuses + [ReadStatus(userId, chatId, None)];
        assert readStatuses[|readStatuses| - 1] == ReadStatus(userId, chatId, None);
      }
      r := Ok(());
    }

    /**
     * `leaveChatRoom` at time `now`: mark the user's membership row as
     * left and recompute the room's key from the members still active.
     * The row is looked up whether or not it is already left; several rows
     * (a user who joined twice) make the lookup fail.
     */
    method LeaveChatRoom(chatRoomId: int, userId: int, now: int) returns (r: Result<()>)
      modifies this`rooms, table
      ensures userId !in users ==> r == Err(UserNotFound(userId))
      ensures userId in users && chatRoomId !in old(rooms) ==> r == Err(ChatRoomNotFound(chatRoomId))
      ensures userId in users && chatRoomId in old(rooms) ==>
        var ks := MembershipRows(old(table.rows), userId, chatRoomId);
        && (ks == {} ==> r == Err(UserNotJoined(chatRoomId, userId)))
        && (|ks| > 1 ==> r == Err(NonUniqueResult))
      ensures r.Err? ==> table.rows == old(table.rows) && rooms == old(rooms)
      ensures r.Ok? ==>
        && userId in users && chatRoomId in old(rooms)
        && (exists k :: MembershipRows(old(table.rows), userId, chatRoomId) == {k}
             && table.rows == old(table.rows)[k := old(table.rows)[k].(leavedAt := Some(now))])
      ensures r.Ok? ==>
        && rooms == old(rooms)[chatRoomId := old(rooms)[chatRoomId].(chatKey := digest(RawKey(ActiveUserIds(table.rows, chatRoomId))))]
        && Some(userId) !in ActiveUserIds(table.rows, chatRoomId)
        && forall v :: v != userId ==>
             (Some(v) in ActiveUserIds(table.rows, chatRoomId) <==> Some(v) in ActiveUserIds(old(table.rows), chatRoomId))
    {
      if userId !in users {
        return Err(UserNotFound(userId));
      }
      if chatRoomId !in rooms {
        return Err(ChatRoomNotFound(chatRoomId));
      }
      var ks := MembershipRows(table.rows, userId, chatRoomId);
      if ks == {} {
        return Err(UserNotJoined(chatRoomId, userId));
      }
      if |ks| > 1 {
        return Err(NonUniqueResult);
      }
      EmptyOrHasElement(ks);
      var k :| k in ks;
      assert ks == {k} by { SingletonSet(ks, k); }
      LeftRowInactive(table.rows, k, userId, chatRoomId, now);
      table.rows := table.rows[k := table.rows[k].(leavedAt := Some(now))];
      var active := ActiveUserIds(table.rows, chatRoomId);
      rooms := rooms[chatRoomId := rooms[chatRoomId].(chatKey := digest(RawKey(active)))];
      r := Ok(());
    }
  }

  lemma SingletonSet(s: set<int>, k: int)
    requires k in s && |s| == 1
    ensures s == {k}
  {
    assert |s - {k}| == 0;
  }

  /** One more member extends both row lists by that member's rows. */
  lemma MembershipsStep(ids: seq<int>, k: nat, roomId: int, firstRowId: int)
    requires k < |ids|
    ensures Memberships(ids[..k + 1], roomId, firstRowId)
         == Memberships(ids[..k], roomId, firstRowId) + [UserChat(firstRowId + k, ids[k], roomId, None, None)]
    ensures ReadStatuses(ids[..k + 1], roomId) == ReadStatuses(ids[..k], roomId) + [ReadStatus(ids[k], roomId, None)]
  {
    assert Memberships(ids[..k + 1], roomId, firstRowId)
        == Memberships(ids[..k], roomId, firstRowId) + [UserChat(firstRowId + k, ids[k], roomId, None, None)];
    assert ReadStatuses(ids[..k + 1], roomId) == ReadStatuses(ids[..k], roomId) + [ReadStatus(ids[k], roomId, None)];
  }

  /** After the only row of a user in a room is marked left, the user is not active there and nobody else changed. */
  lemma LeftRowInactive(before: seq<UserChat>, k: int, userId: int, chatRoomId: int, now: int)
    requires 0 <= k < |before|
    requires MembershipRows(before, userId, chatRoomId) == {k}
    ensures var after := before[k := before[k].(leavedAt := Some(now))];
      && Some(userId) !in ActiveUserIds(after, chatRoomId)
      && forall v :: v != userId ==>
           (Some(v) in ActiveUserIds(after, chatRoomId) <==> Some(v) in ActiveUserIds(before, chatRoomId))
  {
    var after := before[k := before[k].(leavedAt := Some(now))];
    forall i | 0 <= i < |after| && after[i].userId == userId && after[i].chatRoomId == chatRoomId
      ensures i == k
    {
      assert before[i].userId == after[i].userId && before[i].chatRoomId == after[i].chatRoomId;
      assert i in MembershipRows(before, userId, chatRoomId);
    }
    forall v | v != userId
      ensures Some(v) in ActiveUserIds(after, chatRoomId) <==> Some(v) in ActiveUserIds(before, chatRoomId)
    {
      if Some(v) in ActiveUserIds(before, chatRoomId) {
        var i :| 0 <= i < |before| && before[i].userId == v && IsActiveIn(before[i], chatRoomId);
        assert after[i] == before[i];
      }
      if Some(v) in ActiveUserIds(after, chatRoomId) {
        var i :| 0 <= i < |after| && after[i].userId == v && IsActiveIn(after[i], chatRoomId);
        assert after[i] == before[i];
      }
    }
  }
}
