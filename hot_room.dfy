/**
 * HotRoomDetectionService: a per-room message counter over a sliding
 * window, a `hot`/`cool` mode with hysteresis, and a debounce on the
 * last time a room's pointer was written.
 *
 * Redis keys `chat:{id}:msgCount`, `chat:{id}:mode` and
 * `chat:{id}:lastApplied` are modelled as three maps keyed by the room
 * id. Key expiry is not a clock here: the `Expire...` methods drop a key,
 * which is what Redis does when its TTL runs out.
 */
module HotRoom {
  import opened JavaLang

  const HOT: string := "hot"
  const COOL: string := "cool"

  /** What one `isHotRoom` call answers and which mode, if any, it writes. */
  datatype Decision = Decision(hot: bool, write: Option<string>)

  /**
   * The decision of `isHotRoom` once the counter reads `count` and the
   * stored mode is `mode` (`None` when the key is absent).
   */
  function Decide(count: int, mode: Option<string>, enter: int, exit: int): (d: Decision)
    // hysteresis: hot at `enter` or more, and a hot room stays hot until `exit` or less
    ensures d.hot <==> count >= enter || (mode == Some(HOT) && count > exit)
    // after the write, the stored mode is `hot` exactly when the answer is true
    ensures (if d.write.Some? then d.write else mode) == Some(HOT) <==> d.hot
    // a write always changes the stored mode
    ensures d.write.Some? ==> mode != d.write
  {
    if count >= enter then
      Decision(true, if mode == Some(HOT) then None else Some(HOT))
    else if mode == Some(HOT) && count <= exit then
      Decision(false, Some(COOL))
    else
      Decision(mode == Some(HOT), None)
  }

  function ApplyWrite(mode: Option<string>, d: Decision): Option<string>
  {
    if d.write.Some? then d.write else mode
  }

  /**
   * The answers of successive calls that see the counter at `counts[0]`,
   * `counts[1]`, ... starting from stored mode `mode`.
   */
  function Answers(counts: seq<int>, mode: Option<string>, enter: int, exit: int): (r: seq<bool>)
    ensures |r| == |counts|
  {
    if |counts| == 0 then []
    else
      var d := Decide(counts[0], mode, enter, exit);
      [d.hot] + Answers(counts[1..], ApplyWrite(mode, d), enter, exit)
  }

  /** A hot room stays hot on every call whose count stays above the exit threshold. */
  lemma {:induction false} HotStaysHot(counts: seq<int>, enter: int, exit: int)
    requires forall i :: 0 <= i < |counts| ==> counts[i] > exit
    ensures forall i :: 0 <= i < |counts| ==> Answers(counts, Some(HOT), enter, exit)[i]
  {
    if |counts| > 0 {
      var d := Decide(counts[0], Some(HOT), enter, exit);
      assert ApplyWrite(Some(HOT), d) == Some(HOT);
      HotStaysHot(counts[1..], enter, exit);
      var r := Answers(counts, Some(HOT), enter, exit);
      forall i | 0 <= i < |counts| ensures r[i] {
        if i > 0 { assert r[i] == Answers(counts[1..], Some(HOT), enter, exit)[i - 1]; }
      }
    }
  }

  /** A room that is not hot stays not hot on every call whose count stays below the enter threshold. */
  lemma {:induction false} CoolStaysCool(counts: seq<int>, mode: Option<string>, enter: int, exit: int)
    requires mode != Some(HOT)
    requires forall i :: 0 <= i < |counts| ==> counts[i] < enter
    ensures forall i :: 0 <= i < |counts| ==> !Answers(counts, mode, enter, exit)[i]
  {
    if |counts| > 0 {
      var d := Decide(counts[0], mode, enter, exit);
      assert ApplyWrite(mode, d) == mode;
      CoolStaysCool(counts[1..], mode, enter, exit);
      var r := Answers(counts, mode, enter, exit);
      forall i | 0 <= i < |counts| ensures !r[i] {
        if i > 0 { assert r[i] == Answers(counts[1..], mode, enter, exit)[i - 1]; }
      }
    }
  }

  /**
   * The debounce test of `shouldSkipHotUpdate`: skip when a last-applied
   * timestamp parses and `now - last`, computed as a Java `long`, is below
   * the debounce in milliseconds.
   */
  function SkipUpdate(last: Option<string>, now: int, debounceMs: int): (skip: bool)
    requires IsLong(now)
    ensures skip ==> last.Some? && ParseLong(last.value).Some?
  {
    match last
    case None => false
    case Some(s) =>
      match ParseLong(s)
      case None => false
      case Some(t) => WrapLong(now - t) < debounceMs
  }

  /**
   * After an update stored `Show(t)`, a later call at `now` skips exactly
   * while less than `debounceMs` has passed (a clock that went backwards
   * also skips).
   */
  lemma DebounceWindow(t: int, now: int, debounceMs: int)
    requires IsLong(t) && IsLong(now) && IsLong(now - t)
    ensures SkipUpdate(Some(Show(t)), now, debounceMs) <==> now - t < debounceMs
  {
    ParseShowRoundTrip(t);
  }

  class HotRoomDetectionService {
    /** `app.hot-room.*`: `enterThreshold`, `exitThreshold`, and `debounceSeconds` in milliseconds. */
    const enterThreshold: int
    const exitThreshold: int
    const debounceMs: int

    var counts: map<int, int>
    var modes: map<int, string>
    var lastApplied: map<int, string>

    /** The defaults of HotRoomProperty, on an empty store. */
    constructor ()
      ensures enterThreshold == 5 && exitThreshold == 2 && debounceMs == 3 * 1000
      ensures counts == map[] && modes == map[] && lastApplied == map[]
    {
      enterThreshold := 5;
      exitThreshold := 2;
      debounceMs := 3 * 1000;
      counts := map[];
      modes := map[];
      lastApplied := map[];
    }

    function CountOf(chatRoomId: int): int
      reads this
    {
      if chatRoomId in counts then counts[chatRoomId] else 0
    }

    function ModeOf(chatRoomId: int): Option<string>
      reads this
    {
      if chatRoomId in modes then Some(modes[chatRoomId]) else None
    }

    /**
     * `isHotRoom`: INCR the room's counter (an absent key counts from 0),
     * then decide on the new count and the stored mode, writing the mode
     * only when it changes.
     */
    method IsHotRoom(chatRoomId: int) returns (hot: bool)
      modifies this
      ensures counts == old(counts)[chatRoomId := old(CountOf(chatRoomId)) + 1]
      ensures var d := Decide(counts[chatRoomId], old(ModeOf(chatRoomId)), enterThreshold, exitThreshold);
        && hot == d.hot
        && modes == (if d.write.Some? then old(modes)[chatRoomId := d.write.value] else old(modes))
      ensures lastApplied == old(lastApplied)
      ensures ModeOf(chatRoomId) == Some(HOT) <==> hot
    {
      var count := CountOf(chatRoomId) + 1;
      counts := counts[chatRoomId := count];
      var mode := ModeOf(chatRoomId);
      if count >= enterThreshold {
        if mode != Some(HOT) {
          modes := modes[chatRoomId := HOT];
        }
        return true;
      }
      if mode == Some(HOT) && count <= exitThreshold {
        modes := modes[chatRoomId := COOL];
        return false;
      }
      return mode == Some(HOT);
    }

    /**
     * `shouldSkipHotUpdate` at wall-clock time `now`: skip while the stored
     * timestamp is within the debounce; otherwise (no timestamp, an
     * unparsable one, or an old one) store `now` and do not skip.
     */
    method ShouldSkipHotUpdate(chatRoomId: int, now: int) returns (skip: bool)
      requires IsLong(now)
      modifies this
      ensures var last := if chatRoomId in old(lastApplied) then Some(old(lastApplied)[chatRoomId]) else None;
        skip == SkipUpdate(last, now, debounceMs)
      ensures lastApplied == if skip then old(lastApplied) else old(lastApplied)[chatRoomId := Show(now)]
      ensures counts == old(counts) && modes == old(modes)
    {
      if chatRoomId in lastApplied {
        var parsed := ParseLong(lastApplied[chatRoomId]);
        if parsed.Some? && WrapLong(now - parsed.value) < debounceMs {
          return true;
        }
      }
      lastApplied := lastApplied[chatRoomId := Show(now)];
      return false;
    }

    /** The counter's window TTL ran out. */
    method ExpireCounter(chatRoomId: int)
      modifies this
      ensures counts == old(counts) - {chatRoomId}
      ensures modes == old(modes) && lastApplied == old(lastApplied)
    {
      counts := counts - {chatRoomId};
    }

    /** The mode key's TTL ran out. */
    method ExpireMode(chatRoomId: int)
      modifies this
      ensures modes == old(modes) - {chatRoomId}
      ensures counts == old(counts) && lastApplied == old(lastApplied)
    {
      modes := modes - {chatRoomId};
    }

    /** The last-applied key's TTL ran out. */
    method ExpireLastApplied(chatRoomId: int)
      modifies this
      ensures lastApplied == old(lastApplied) - {chatRoomId}
      ensures counts == old(counts) && modes == old(modes)
    {
      lastApplied := lastApplied - {chatRoomId};
    }
  }
}
