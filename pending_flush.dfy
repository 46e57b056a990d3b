/**
 * PendingLastMessageFlushService: while a room is hot, pointer updates are
 * skipped and the largest skipped message id is cached in the Redis hash
 * `chat:pendingLastMessages` (field = room id). A per-room flag
 * `chat:{id}:flushScheduled`, set with SETNX, makes sure only one delayed
 * flush is queued; the flush writes the cached id through
 * `updateLastMessageIdForChat` and deletes both keys.
 *
 * The hash is a map from room id to the stored string, the flags are the
 * set of rooms whose flag key is present (the key is injective in the room,
 * see ScheduledKeyInjective), the delayed queue is a sequence of jobs, and
 * the `user_chat` rows live in a UserChatTable.
 */
module PendingFlush {
  import opened JavaLang
  import opened UserChatRepository

  /** `scheduledKey(chatRoomId)`: `chat:{id}:flushScheduled`. */
  function ScheduledKey(chatRoomId: int): (k: string)
    ensures StartsWith(k, "chat:")
  {
    "chat:" + Show(chatRoomId) + ":flushScheduled"
  }

  /** Distinct rooms never share a flag. */
  lemma ScheduledKeyInjective(a: int, b: int)
    ensures ScheduledKey(a) == ScheduledKey(b) ==> a == b
  {
    if ScheduledKey(a) == ScheduledKey(b) {
      var ka, kb := ScheduledKey(a), ScheduledKey(b);
      assert |Show(a)| == |Show(b)|;
      assert Show(a) == ka[5..5 + |Show(a)|];
      assert Show(b) == kb[5..5 + |Show(b)|];
      ShowInjective(a, b);
    }
  }

  /** A room on the delayed queue, due after `delayMs`. */
  datatype DelayedJob = DelayedJob(chatRoomId: int, delayMs: int)

  function Max(a: int, b: int): int { if a < b then b else a }

  /**
   * The hash value after `cachePendingMax(_, messageId)` when the current
   * value is `current`: the new id replaces a missing value, an
   * unparsable one, or a smaller one; otherwise the value is kept.
   */
  function CachedValue(current: Option<string>, messageId: int): (r: string)
    requires IsLong(messageId)
    ensures r == Show(messageId) || (current.Some? && r == current.value)
    ensures current.Some? && ParseLong(current.value).Some?
      ==> ParseLong(r) == Some(Max(ParseLong(current.value).value, messageId))
    ensures current.None? || ParseLong(current.value).None? ==> ParseLong(r) == Some(messageId)
  {
    ParseShowRoundTrip(messageId);
    match current
    case None => Show(messageId)
    case Some(s) =>
      match ParseLong(s)
      case None => Show(messageId)
      case Some(v) => if v < messageId then Show(messageId) else s
  }

  /** The cached value after caching every id of `ids` in turn. */
  function CacheRun(current: Option<string>, ids: seq<int>): Option<string>
    requires forall i :: 0 <= i < |ids| ==> IsLong(ids[i])
    decreases |ids|
  {
    if |ids| == 0 then current else CacheRun(Some(CachedValue(current, ids[0])), ids[1..])
  }

  function MaxOf(ids: seq<int>): int
    requires |ids| > 0
  {
    if |ids| == 1 then ids[0] else Max(ids[0], MaxOf(ids[1..]))
  }

  /** Whatever order the ids arrive in, the cache ends up holding the largest. */
  lemma {:induction false} CacheRunHoldsMax(current: Option<string>, ids: seq<int>)
    requires forall i :: 0 <= i < |ids| ==> IsLong(ids[i])
    requires current.Some? ==> ParseLong(current.value).Some?
    requires |ids| > 0
    ensures var r := CacheRun(current, ids);
      r.Some? && ParseLong(r.value).Some?
      && ParseLong(r.value).value
         == (if current.Some? then Max(ParseLong(current.value).value, MaxOf(ids)) else MaxOf(ids))
    decreases |ids|
  {
    var next := Some(CachedValue(current, ids[0]));
    if |ids| > 1 {
      CacheRunHoldsMax(next, ids[1..]);
    }
  }

  /** The scenario of the service's unit test: 5, then 4 keeps 5, then 6 writes 6. */
  lemma CacheKeepsLargerExample()
    ensures CachedValue(None, 5) == Show(5)
    ensures CachedValue(Some(Show(5)), 4) == Show(5)
    ensures CachedValue(Some(Show(5)), 6) == Show(6)
  {
    ParseShowRoundTrip(5);
  }

  // -----------------------------------------------------------------------
  // What a flush does, as functions of the state before it

  /** The numeric pending id of a room, if its field exists and parses. */
  function PendingId(pending: map<int, string>, chatRoomId: int): (r: Option<int>)
    ensures r.Some? ==> chatRoomId in pending && ParseLong(pending[chatRoomId]) == r
  {
    if chatRoomId in pending then ParseLong(pending[chatRoomId]) else None
  }

  /** Rows after flushing one room whose pending id is `id`. */
  function RowsAfterFlush(rows: seq<UserChat>, chatRoomId: int, id: Option<int>): seq<UserChat>
  {
    if id.Some? then PointerUpdated(rows, chatRoomId, id.value) else rows
  }

  function Restrict(m: map<int, string>, rooms: set<int>): (r: map<int, string>)
    ensures r.Keys == m.Keys * rooms
  {
    map r | r in m && r in rooms :: m[r]
  }

  /** Rows after flushing every room of `m`, in any order. */
  function FlushedAll(rows: seq<UserChat>, m: map<int, string>): (r: seq<UserChat>)
    ensures |r| == |rows|
  {
    seq(|rows|, i requires 0 <= i < |rows| =>
      var id := PendingId(m, rows[i].chatRoomId);
      if id.Some? then WithPointer(rows[i], rows[i].chatRoomId, id.value) else rows[i])
  }

  lemma FlushedAllEmpty(rows: seq<UserChat>)
    ensures FlushedAll(rows, map[]) == rows
  {
  }

  /** Flushing one more room extends the combined effect. */
  lemma FlushedAllStep(rows: seq<UserChat>, m: map<int, string>, r: int, s: string)
    requires r !in m
    ensures FlushedAll(rows, m[r := s]) == RowsAfterFlush(FlushedAll(rows, m), r, ParseLong(s))
  {
    var lhs := FlushedAll(rows, m[r := s]);
    var rhs := RowsAfterFlush(FlushedAll(rows, m), r, ParseLong(s));
    forall i | 0 <= i < |rows| ensures lhs[i] == rhs[i] {
      if rows[i].chatRoomId != r {
        assert PendingId(m[r := s], rows[i].chatRoomId) == PendingId(m, rows[i].chatRoomId);
      }
    }
  }

  /** Some queued job will flush `chatRoomId`. */
  predicate HasJob(queue: seq<DelayedJob>, chatRoomId: int)
  {
    exists j :: 0 <= j < |queue| && queue[j].chatRoomId == chatRoomId
  }

  /** The combined effect of the flushes so far grows by one room. */
  lemma FlushOneMore(rows: seq<UserChat>, snapshot: map<int, string>, chosen: set<int>, r: int)
    requires r in snapshot && r !in chosen
    ensures FlushedAll(rows, Restrict(snapshot, chosen + {r}))
         == RowsAfterFlush(FlushedAll(rows, Restrict(snapshot, chosen)), r, ParseLong(snapshot[r]))
  {
    assert Restrict(snapshot, chosen + {r}) == Restrict(snapshot, chosen)[r := snapshot[r]];
    FlushedAllStep(rows, Restrict(snapshot, chosen), r, snapshot[r]);
  }

  /** A room whose flush is marked as scheduled does have a flush on the delayed queue. */
  ghost predicate FlagsHaveJobs(scheduled: set<int>, queue: seq<DelayedJob>)
  {
    forall r :: r in scheduled ==> HasJob(queue, r)
  }

  /** Setting a flag that was absent comes with a new job. */
  lemma FlagsHaveJobsSchedule(scheduled: set<int>, queue: seq<DelayedJob>, chatRoomId: int, delayMs: int)
    requires FlagsHaveJobs(scheduled, queue)
    ensures FlagsHaveJobs(scheduled + {chatRoomId},
      queue + (if chatRoomId in scheduled then [] else [DelayedJob(chatRoomId, delayMs)]))
  {
    var queue' := queue + (if chatRoomId in scheduled then [] else [DelayedJob(chatRoomId, delayMs)]);
    forall r | r in scheduled + {chatRoomId} ensures HasJob(queue', r) {
      if r in scheduled {
        var j :| 0 <= j < |queue| && queue[j].chatRoomId == r;
        assert queue'[j] == queue[j];
      } else {
        assert queue'[|queue|].chatRoomId == r;
      }
    }
  }

  /** A job leaving the queue takes its room's flag with it. */
  lemma FlagsHaveJobsFire(scheduled: set<int>, queue: seq<DelayedJob>, i: int)
    requires FlagsHaveJobs(scheduled, queue) && 0 <= i < |queue|
    ensures FlagsHaveJobs(scheduled - {queue[i].chatRoomId}, queue[..i] + queue[i + 1..])
  {
    var rest := queue[..i] + queue[i + 1..];
    forall q | q in scheduled - {queue[i].chatRoomId} ensures HasJob(rest, q) {
      var j :| 0 <= j < |queue| && queue[j].chatRoomId == q;
      assert j != i;
      if j < i { assert rest[j] == queue[j]; } else { assert rest[j - 1] == queue[j]; }
    }
  }

  /**
   * Where a pass over the pending rooms stands: the rooms of `flushed` have
   * been flushed from `snapshot`, nothing else has changed.
   */
  ghost predicate FlushedSoFar(rows0: seq<UserChat>, scheduled0: set<int>, snapshot: map<int, string>,
                               flushed: set<int>, pending: map<int, string>, scheduled: set<int>,
                               rows: seq<UserChat>)
  {
    && pending == snapshot - flushed
    && scheduled == scheduled0 - flushed
    && rows == FlushedAll(rows0, Restrict(snapshot, flushed))
  }

  lemma FlushedSoFarStart(rows0: seq<UserChat>, scheduled0: set<int>, snapshot: map<int, string>)
    ensures FlushedSoFar(rows0, scheduled0, snapshot, {}, snapshot, scheduled0, rows0)
  {
    assert Restrict(snapshot, {}) == map[];
    FlushedAllEmpty(rows0);
  }

  /** Flushing one more room of the snapshot, as `flush` does, extends the pass. */
  lemma FlushedSoFarStep(rows0: seq<UserChat>, scheduled0: set<int>, snapshot: map<int, string>,
                         flushed: set<int>, pending: map<int, string>, scheduled: set<int>,
                         rows: seq<UserChat>, r: int)
    requires FlushedSoFar(rows0, scheduled0, snapshot, flushed, pending, scheduled, rows)
    requires r in snapshot && r !in flushed
    ensures PendingId(pending, r) == ParseLong(snapshot[r])
    ensures FlushedSoFar(rows0, scheduled0, snapshot, flushed + {r}, pending - {r}, scheduled - {r},
                         RowsAfterFlush(rows, r, PendingId(pending, r)))
  {
    FlushOneMore(rows0, snapshot, flushed, r);
  }

  class PendingLastMessageFlushService {
    const table: UserChatTable
    var pending: map<int, string>
    var scheduled: set<int>
    var queue: seq<DelayedJob>

    ghost predicate Valid()
      reads this
    {
      FlagsHaveJobs(scheduled, queue)
    }

    constructor (table: UserChatTable)
      ensures this.table == table && Valid()
      ensures pending == map[] && scheduled == {} && queue == []
    {
      this.table := table;
      pending := map[];
      scheduled := {};
      queue := [];
    }

    function Current(chatRoomId: int): Option<string>
      reads this
    {
      if chatRoomId in pending then Some(pending[chatRoomId]) else None
    }

    /** `cachePendingMax`: keep the largest id seen for the room. */
    method CachePendingMax(chatRoomId: int, messageId: int)
      requires IsLong(messageId)
      modifies this
      ensures pending == old(pending)[chatRoomId := CachedValue(old(Current(chatRoomId)), messageId)]
      ensures scheduled == old(scheduled) && queue == old(queue)
    {
      var current := Current(chatRoomId);
      if current.None? {
        pending := pending[chatRoomId := Show(messageId)];
      } else {
        var parsed := ParseLong(current.value);
        if parsed.None? || parsed.value < messageId {
          pending := pending[chatRoomId := Show(messageId)];
        }
      }
    }

    /**
     * `scheduleFlush`: always cache the id; queue a delayed flush only if
     * SETNX finds the room's flag absent, so a room with its flag set is
     * never queued again.
     */
    method ScheduleFlush(chatRoomId: int, messageId: int, delayMs: int)
      requires IsLong(messageId) && Valid()
      modifies this
      ensures Valid()
      ensures pending == old(pending)[chatRoomId := CachedValue(old(Current(chatRoomId)), messageId)]
      ensures scheduled == old(scheduled) + {chatRoomId}
      ensures queue == old(queue)
        + (if chatRoomId in old(scheduled) then [] else [DelayedJob(chatRoomId, delayMs)])
    {
      CachePendingMax(chatRoomId, messageId);
      FlagsHaveJobsSchedule(scheduled, queue, chatRoomId, delayMs);
      var wasAbsent := chatRoomId !in scheduled;
      scheduled := scheduled + {chatRoomId};
      if wasAbsent {
        queue := queue + [DelayedJob(chatRoomId, delayMs)];
      }
    }

    /**
     * `flush`: write the room's pending id when it parses, then delete the
     * pending field and the flag. Afterwards the room has neither, so
     * flushing it again changes nothing.
     */
    method Flush(chatRoomId: int)
      requires Valid()
      modifies this, table
      ensures Valid()
      ensures pending == old(pending) - {chatRoomId}
      ensures scheduled == old(scheduled) - {chatRoomId}
      ensures queue == old(queue)
      ensures table.rows == RowsAfterFlush(old(table.rows), chatRoomId, PendingId(old(pending), chatRoomId))
    {
      if chatRoomId !in pending {
        scheduled := scheduled - {chatRoomId};
        return;
      }
      var parsed := ParseLong(pending[chatRoomId]);
      if parsed.Some? {
        var _ := table.UpdateLastMessageIdForChat(chatRoomId, parsed.value);
      }
      pending := pending - {chatRoomId};
      scheduled := scheduled - {chatRoomId};
    }

    /** `flushIfPending`: flush only a room that has a pending field. */
    method FlushIfPending(chatRoomId: int)
      requires Valid()
      modifies this, table
      ensures Valid()
      ensures chatRoomId !in old(pending) ==>
        pending == old(pending) && scheduled == old(scheduled)
        && table.rows == old(table.rows)
      ensures chatRoomId in old(pending) ==>
        && pending == old(pending) - {chatRoomId}
        && scheduled == old(scheduled) - {chatRoomId}
        && table.rows == RowsAfterFlush(old(table.rows), chatRoomId, PendingId(old(pending), chatRoomId))
      ensures queue == old(queue)
    {
      if chatRoomId !in pending {
        return;
      }
      Flush(chatRoomId);
    }

    /**
     * One turn of the consumer loop: the delayed job at position `i` has
     * come due; it leaves the queue and its room is flushed.
     */
    method FireScheduled(i: int)
      requires Valid() && 0 <= i < |queue|
      modifies this, table
      ensures Valid()
      ensures var r := old(queue)[i].chatRoomId;
        && queue == old(queue)[..i] + old(queue)[i + 1..]
        && pending == old(pending) - {r}
        && scheduled == old(scheduled) - {r}
        && table.rows == RowsAfterFlush(old(table.rows), r, PendingId(old(pending), r))
    {
      var r := queue[i].chatRoomId;
      FlagsHaveJobsFire(scheduled, queue, i);
      queue := queue[..i] + queue[i + 1..];
      scheduled := scheduled - {r};
      Flush(r);
    }

    /** The flag's TTL (the flush delay) ran out. */
    method ExpireScheduledFlag(chatRoomId: int)
      requires Valid()
      modifies this
      ensures Valid()
      ensures scheduled == old(scheduled) - {chatRoomId}
      ensures pending == old(pending) && queue == old(queue)
    {
      scheduled := scheduled - {chatRoomId};
    }

    /** The hash's ten-minute TTL ran out: every pending field is gone. */
    method ExpirePendingHash()
      requires Valid()
      modifies this
      ensures Valid()
      ensures pending == map[]
      ensures scheduled == old(scheduled) && queue == old(queue)
    {
      pending := map[];
    }

    /**
     * `flushAllPendingMessages` (on shutdown): flush every pending room,
     * flagged or not. Each numeric value is written once and nothing is
     * left pending.
     */
    method FlushAllPendingMessages()
      requires Valid()
      modifies this, table
      ensures Valid()
      ensures pending == map[]
      ensures scheduled == old(scheduled) - old(pending).Keys
      ensures queue == old(queue)
      ensures table.rows == FlushedAll(old(table.rows), old(pending))
    {
      var snapshot := pending;
      var todo := snapshot.Keys;
      var done: set<int> := {};
      FlushedSoFarStart(table.rows, scheduled, snapshot);
      while todo != {}
        invariant Valid() && queue == old(queue)
        invariant todo + done == snapshot.Keys && todo !! done
        invariant FlushedSoFar(old(table.rows), old(scheduled), snapshot, done, pending, scheduled, table.rows)
        decreases todo
      {
        EmptyOrHasElement(todo);
        var r :| r in todo;
        FlushedSoFarStep(old(table.rows), old(scheduled), snapshot, done, pending, scheduled, table.rows, r);
        Flush(r);
        todo := todo - {r};
        done := done + {r};
      }
      assert Restrict(snapshot, done) == snapshot;
    }

    /**
     * `recoverPendingFlushes` (on startup): a pending room whose flag is
     * gone lost its queued flush in a crash. Such a room is flushed at once
     * when its value parses and has its field deleted otherwise; rooms with
     * a live flag are left to their queued flush.
     */
    method RecoverPendingFlushes()
      requires Valid()
      modifies this, table
      ensures Valid()
      ensures var lost := set r | r in old(pending) && r !in old(scheduled);
        && pending == old(pending) - lost
        && table.rows == FlushedAll(old(table.rows), Restrict(old(pending), lost))
      ensures scheduled == old(scheduled) && queue == old(queue)
    {
      var snapshot := pending;
      ghost var lost := set r | r in snapshot && r !in scheduled;
      var todo := snapshot.Keys;
      var done: set<int> := {};
      ghost var recovered: set<int> := {};
      FlushedSoFarStart(table.rows, scheduled, snapshot);
      while todo != {}
        invariant Valid() && queue == old(queue)
        invariant todo + done == snapshot.Keys && todo !! done
        invariant recovered == done * lost
        invariant FlushedSoFar(old(table.rows), old(scheduled), snapshot, recovered, pending, scheduled, table.rows)
        decreases todo
      {
        EmptyOrHasElement(todo);
        var r :| r in todo;
        if r !in scheduled {
          FlushedSoFarStep(old(table.rows), old(scheduled), snapshot, recovered, pending, scheduled, table.rows, r);
          var parsed := ParseLong(snapshot[r]);
          if parsed.Some? {
            Flush(r);
          } else {
            pending := pending - {r};
          }
          recovered := recovered + {r};
        }
        todo := todo - {r};
        done := done + {r};
      }
      assert recovered == lost;
    }
  }
}
