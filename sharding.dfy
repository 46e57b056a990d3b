/**
 * Sharding: the message store is split into shards, and the shard of an
 * operation is chosen from the chat room id bound to the current thread.
 * `MessageShardKeySelector.getShardKey` maps the id to a shard;
 * `ShardingAspect.handleSharding` resolves the id for a call to a
 * `@Sharding` method, binds it for the duration of the call and removes it
 * afterwards; the routing data source asks the selector for the shard of
 * the bound id whenever a store statement runs.
 *
 * A call's body is modelled as a sequence of steps: a store statement, an
 * exception, or a nested call to another `@Sharding` method.
 */
module Sharding {
  import opened JavaLang

  /**
   * `getShardKey`: shard 0 for a null id, otherwise the id's remainder
   * modulo 2 with Java's sign rule (so an odd negative id gives -1).
   */
  function GetShardKey(chatId: Option<int>): (shard: int)
    ensures chatId.None? ==> shard == 0
    ensures chatId.Some? ==> shard == JavaRem(chatId.value, 2)
  {
    if chatId.None? then 0 else JavaRem(chatId.value, 2)
  }

  /** The shards a key can select: 0 and 1 for a null or non-negative id, and -1 only for an odd negative id. */
  lemma ShardKeyRange(chatId: Option<int>)
    ensures -1 <= GetShardKey(chatId) <= 1
    ensures GetShardKey(chatId) == -1 <==> chatId.Some? && chatId.value < 0 && chatId.value % 2 == 1
    ensures GetShardKey(chatId) == 0 <==> chatId.None? || chatId.value % 2 == 0
    ensures GetShardKey(chatId) == 1 <==> chatId.Some? && chatId.value >= 0 && chatId.value % 2 == 1
  {
    if chatId.Some? && chatId.value < 0 {
      var n := chatId.value;
      assert (-n) % 2 == n % 2 by {
        assert -n == n + 2 * (-n);
      }
    }
  }

  /** Ids of the same parity and the same sign share a shard. */
  lemma SameParitySameShard(a: int, b: int)
    requires a % 2 == b % 2
    requires a < 0 <==> b < 0
    ensures GetShardKey(Some(a)) == GetShardKey(Some(b))
  {
    ShardKeyRange(Some(a));
    ShardKeyRange(Some(b));
  }

  /** Parity alone is not enough: -1 and 1 are both odd but land on different shards. */
  lemma OppositeSignsSplit()
    ensures (-1) % 2 == 1 % 2
    ensures GetShardKey(Some(-1)) == -1 && GetShardKey(Some(1)) == 1
  {
  }

  /**
   * `toLongSafe`: 0 for null, otherwise `Long.valueOf(String.valueOf(v))`,
   * with 0 in place of a NumberFormatException.
   */
  function ToLongSafe(v: Value): (r: int)
    ensures IsLong(r)
    ensures r != 0 ==> v != VNull && ParseLong(Render(v)) == Some(r)
    ensures v != VNull && ParseLong(Render(v)).Some? ==> r == ParseLong(Render(v)).value
  {
    if v == VNull then 0
    else
      match ParseLong(Render(v))
      case Some(n) => n
      case None => 0
  }

  /** A number in the `long` range, or its decimal text, converts to itself. */
  lemma ToLongSafeOfLong(n: int)
    requires IsLong(n)
    ensures ToLongSafe(VNum(n)) == n
    ensures ToLongSafe(VStr(Show(n))) == n
  {
    ParseShowRoundTrip(n);
  }

  /** A number beyond the `long` range converts to 0. */
  lemma ToLongSafeOfWideNumber(n: int)
    requires !IsLong(n)
    ensures ToLongSafe(VNum(n)) == 0
  {
  }

  /**
   * A call to a `@Sharding` method as the aspect sees it: the annotation's
   * key expression (`None` for null), the call's arguments, and the value
   * the expression evaluates to against them.
   */
  datatype ShardedCall = ShardedCall(spel: Option<string>, args: seq<Value>, evaluated: Value)

  /**
   * `resolveShardKey`: a null or blank expression falls back to the first
   * argument, or 0 when there is none; otherwise the expression's value.
   * Either way the value goes through `toLongSafe`.
   */
  function ResolveShardKey(call: ShardedCall): (chatId: int)
    ensures IsLong(chatId)
    ensures (call.spel.None? || IsBlank(call.spel.value)) && |call.args| == 0 ==> chatId == 0
    ensures (call.spel.None? || IsBlank(call.spel.value)) && |call.args| > 0 ==> chatId == ToLongSafe(call.args[0])
    ensures call.spel.Some? && !IsBlank(call.spel.value) ==> chatId == ToLongSafe(call.evaluated)
  {
    if call.spel.None? || IsBlank(call.spel.value) then
      if |call.args| > 0 then ToLongSafe(call.args[0]) else 0
    else ToLongSafe(call.evaluated)
  }

  /** With no key expression, a first argument holding a room id selects that room. */
  lemma FirstArgumentIsKey(args: seq<Value>, chatRoomId: int)
    requires |args| > 0 && args[0] == VNum(chatRoomId) && IsLong(chatRoomId)
    ensures ResolveShardKey(ShardedCall(None, args, VNull)) == chatRoomId
    ensures ResolveShardKey(ShardedCall(Some(""), args, VNull)) == chatRoomId
  {
    ToLongSafeOfLong(chatRoomId);
  }

  /** What runs inside a sharded call. */
  datatype Step =
    | Query
    | Throw
    | Sharded(call: ShardedCall, body: seq<Step>)

  /** The shard of every store statement run, whether an exception escaped, and the binding left behind. */
  datatype Run = Run(routes: seq<int>, bound: Option<int>, threw: bool)

  /**
   * Running `steps` with `bound` as the thread's binding. A nested call
   * binds its own key and, on the way out, removes the binding; with
   * `scoped` it instead puts back the binding it found.
   */
  function Exec(bound: Option<int>, steps: seq<Step>, scoped: bool): (r: Run)
    ensures |steps| == 0 ==> r == Run([], bound, false)
    decreases steps
  {
    if |steps| == 0 then Run([], bound, false)
    else
      match steps[0]
      case Query =>
        var rest := Exec(bound, steps[1..], scoped);
        Run([GetShardKey(bound)] + rest.routes, rest.bound, rest.threw)
      case Throw => Run([], bound, true)
      case Sharded(call, body) =>
        var inner := Exec(Some(ResolveShardKey(call)), body, scoped);
        var after := if scoped then bound else None;
        if inner.threw then Run(inner.routes, after, true)
        else
          var rest := Exec(after, steps[1..], scoped);
          Run(inner.routes + rest.routes, rest.bound, rest.threw)
  }

  predicate NoNestedCalls(steps: seq<Step>)
  {
    forall i :: 0 <= i < |steps| ==> !steps[i].Sharded?
  }

  /** Without nested calls every statement of the body goes to the shard of the bound key, and the binding stays. */
  lemma {:induction false} FlatBodyUsesOneShard(bound: Option<int>, steps: seq<Step>, scoped: bool)
    requires NoNestedCalls(steps)
    ensures forall i :: 0 <= i < |Exec(bound, steps, scoped).routes| ==> Exec(bound, steps, scoped).routes[i] == GetShardKey(bound)
    ensures Exec(bound, steps, scoped).bound == bound
    decreases steps
  {
    if |steps| > 0 && steps[0].Query? {
      assert NoNestedCalls(steps[1..]) by {
        forall i | 0 <= i < |steps[1..]| ensures !steps[1..][i].Sharded? {
          assert steps[1..][i] == steps[i + 1];
        }
      }
      FlatBodyUsesOneShard(bound, steps[1..], scoped);
    }
  }

  /** With scoped binding, running any steps that finish normally leaves the binding as it was. */
  lemma {:induction false} ScopedKeepsBinding(bound: Option<int>, steps: seq<Step>)
    ensures !Exec(bound, steps, true).threw ==> Exec(bound, steps, true).bound == bound
    decreases steps
  {
    if |steps| > 0 {
      ScopedKeepsBinding(bound, steps[1..]);
    }
  }

  /**
   * As written: a statement that follows a nested sharded call no longer
   * sees the caller's key, and goes to shard 0 whatever that key was.
   */
  lemma NestedCallUnbindsOuter(outer: int, call: ShardedCall, body: seq<Step>)
    requires !Exec(Some(ResolveShardKey(call)), body, false).threw
    ensures var r := Exec(Some(outer), [Sharded(call, body), Query], false);
      r.routes == Exec(Some(ResolveShardKey(call)), body, false).routes + [0] && r.bound == None
  {
    var steps := [Sharded(call, body), Query];
    assert steps[1..] == [Query];
    assert [Query][1..] == [];
  }

  /** The outer key 1 selects shard 1, yet the statement after a nested call goes to shard 0. */
  lemma NestedCallMovesShard()
    ensures GetShardKey(Some(1)) == 1
    ensures Exec(Some(1), [Sharded(ShardedCall(None, [VNum(2)], VNull), []), Query], false).routes == [0]
  {
    ToLongSafeOfLong(2);
    NestedCallUnbindsOuter(1, ShardedCall(None, [VNum(2)], VNull), []);
  }

  /** Scoped: the statement after a nested sharded call goes to the caller's shard again. */
  lemma ScopedNestedCallKeepsOuter(outer: Option<int>, call: ShardedCall, body: seq<Step>)
    requires !Exec(Some(ResolveShardKey(call)), body, true).threw
    ensures var r := Exec(outer, [Sharded(call, body), Query], true);
      r.routes == Exec(Some(ResolveShardKey(call)), body, true).routes + [GetShardKey(outer)] && r.bound == outer
  {
    var steps := [Sharded(call, body), Query];
    assert steps[1..] == [Query];
    assert [Query][1..] == [];
  }

  /**
   * The thread's binding and the shard of every store statement run so
   * far: `threadLocalChatId` and the lookups of the routing data source.
   */
  class ShardContext {
    var current: Option<int>
    var routes: seq<int>

    constructor ()
      ensures current == None && routes == []
    {
      current := None;
      routes := [];
    }

    /**
     * `determineCurrentLookupKey`: the selector applied to
     * `getCurrentThreadChatId`, so an unbound thread uses shard 0.
     */
    function CurrentShard(): (shard: int)
      reads this
      ensures current.None? ==> shard == 0
      ensures current.Some? && current.value >= 0 ==> shard == current.value % 2
    {
      GetShardKey(current)
    }

    /**
     * `handleSharding`: resolve the key, bind it, run the call and remove
     * the binding in `finally`, whether the call returned or threw.
     */
    method HandleSharding(call: ShardedCall, body: seq<Step>) returns (threw: bool)
      modifies this
      ensures routes == old(routes) + Exec(Some(ResolveShardKey(call)), body, false).routes
      ensures threw == Exec(Some(ResolveShardKey(call)), body, false).threw
      ensures current == None && CurrentShard() == 0
      decreases body, 2
    {
      var chatId := ResolveShardKey(call);
      current := Some(chatId);
      threw := Proceed(body, false);
      current := None;
    }

    /** The scoped alternative: as `HandleSharding`, but putting back the binding it found. */
    method HandleShardingScoped(call: ShardedCall, body: seq<Step>) returns (threw: bool)
      modifies this
      ensures routes == old(routes) + Exec(Some(ResolveShardKey(call)), body, true).routes
      ensures threw == Exec(Some(ResolveShardKey(call)), body, true).threw
      ensures current == old(current)
      decreases body, 2
    {
      var previous := current;
      var chatId := ResolveShardKey(call);
      current := Some(chatId);
      threw := Proceed(body, true);
      current := previous;
    }

    /** `joinPoint.proceed()`: run the steps in order until one throws. */
    method Proceed(steps: seq<Step>, scoped: bool) returns (threw: bool)
      modifies this
      ensures routes == old(routes) + Exec(old(current), steps, scoped).routes
      ensures threw == Exec(old(current), steps, scoped).threw
      ensures current == Exec(old(current), steps, scoped).bound
      decreases steps, 1
    {
      if |steps| == 0 {
        return false;
      }
      match steps[0]
      case Query =>
        var shard := CurrentShard();
        ghost var routes0, rest := routes, Exec(current, steps[1..], scoped);
        assert Exec(current, steps, scoped) == Run([shard] + rest.routes, rest.bound, rest.threw);
        routes := routes + [shard];
        threw := Proceed(steps[1..], scoped);
        assert routes == routes0 + ([shard] + rest.routes) by {
          assert routes == routes0 + [shard] + rest.routes;
        }
      case Throw =>
        threw := true;
      case Sharded(_, _) =>
        threw := ProceedNested(steps, scoped);
    }

    /** A nested sharded call as the first step, then the remaining steps unless it threw. */
    method ProceedNested(steps: seq<Step>, scoped: bool) returns (threw: bool)
      requires |steps| > 0 && steps[0].Sharded?
      modifies this
      ensures routes == old(routes) + Exec(old(current), steps, scoped).routes
      ensures threw == Exec(old(current), steps, scoped).threw
      ensures current == Exec(old(current), steps, scoped).bound
      decreases steps, 0
    {
      var call, body := steps[0].call, steps[0].body;
      ghost var before, inner := current, Exec(Some(ResolveShardKey(call)), body, scoped);
      if scoped {
        threw := HandleShardingScoped(call, body);
      } else {
        threw := HandleSharding(call, body);
      }
      if threw {
        assert Exec(before, steps, scoped) == Run(inner.routes, current, true);
      } else {
        ghost var rest := Exec(current, steps[1..], scoped);
        assert Exec(before, steps, scoped) == Run(inner.routes + rest.routes, rest.bound, rest.threw);
        threw := Proceed(steps[1..], scoped);
        assert routes == old(routes) + inner.routes + rest.routes;
      }
    }
  }
}
