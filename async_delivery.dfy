/**
 * AsyncMessageDeliveryService: after a message is stored, deliver it off
 * the request thread, either to the one receiver of a direct chat or to
 * every active member of the room except the sender, each through
 * `deliverMessage`.
 *
 * The message store is a parameter (`messages`), and the service keeps a
 * log of the receivers it passed to `deliverMessage`.
 */
module AsyncDelivery {
  import opened JavaLang
  import opened UserChatRepository
  import opened SessionManager
  import opened MessageDelivery

  /** The effect of `a` followed by `b`; `b` is the later call, so its exception is the one seen. */
  function Then(a: Effect, b: Effect): (e: Effect)
    ensures e.frames == a.frames + b.frames && e.posts == a.posts + b.posts && e.retries == a.retries + b.retries
    ensures e.raised == b.raised
  {
    Effect(a.frames + b.frames, a.posts + b.posts, a.retries + b.retries, b.raised)
  }

  /** The receivers passed to `deliverMessage` by a group delivery, and what those calls did together. */
  datatype GroupRun = GroupRun(effect: Effect, calls: seq<int>)

  /** The active members other than the sender, in participant order. */
  function Others(participants: seq<UserChat>, senderId: int): (users: seq<int>)
    ensures |users| <= |participants|
  {
    if |participants| == 0 then []
    else
      var n := |participants| - 1;
      var init := Others(participants[..n], senderId);
      if participants[n].userId == senderId then init else init + [participants[n].userId]
  }

  /** A user is among the others exactly when some participant is that user and is not the sender. */
  lemma {:induction false} OthersExactly(participants: seq<UserChat>, senderId: int)
    ensures forall u :: u in Others(participants, senderId) <==>
      u != senderId && exists i :: 0 <= i < |participants| && participants[i].userId == u
  {
    if |participants| > 0 {
      var n := |participants| - 1;
      OthersExactly(participants[..n], senderId);
      forall u | u != senderId && exists i :: 0 <= i < |participants| && participants[i].userId == u
        ensures u in Others(participants, senderId)
      {
        var i :| 0 <= i < |participants| && participants[i].userId == u;
        if i < n {
          assert participants[..n][i] == participants[i];
        }
      }
    }
  }

  /**
   * `deliverMessageToChatRoom`: `deliverMessage` for each participant
   * that is not the sender, in order, until one of them throws (the
   * exception leaves the loop). For a user `u`, `dirUp(u)` is the outcome
   * of the directory read, `faultOf(u)` of the local send and `postOk(u)`
   * of the first forward POST.
   */
  function GroupRunOf(delivery: MessageDeliveryService, reg: Registry, entries: map<int, string>,
                      participants: seq<UserChat>, senderId: int, m: Message,
                      dirUp: int -> bool, faultOf: int -> SendFault, postOk: int -> bool): GroupRun
  {
    if |participants| == 0 then GroupRun(NO_EFFECT, [])
    else
      var n := |participants| - 1;
      var prev := GroupRunOf(delivery, reg, entries, participants[..n], senderId, m, dirUp, faultOf, postOk);
      var u := participants[n].userId;
      if prev.effect.raised || u == senderId then prev
      else GroupRun(Then(prev.effect, delivery.DeliveryEffect(reg, entries, u, m, dirUp(u), faultOf(u), postOk(u))), prev.calls + [u])
  }

  /**
   * The sender is never called, every frame goes to a called receiver, the
   * calls are the others in order up to the one that threw, and all of them
   * when none threw.
   */
  lemma {:induction false} GroupRunShape(delivery: MessageDeliveryService, reg: Registry, entries: map<int, string>,
                                         participants: seq<UserChat>, senderId: int, m: Message,
                                         dirUp: int -> bool, faultOf: int -> SendFault, postOk: int -> bool)
    ensures var r := GroupRunOf(delivery, reg, entries, participants, senderId, m, dirUp, faultOf, postOk);
      && senderId !in r.calls
      && (forall f :: f in r.effect.frames ==> f.userId in r.calls)
      && r.calls <= Others(participants, senderId)
      && (!r.effect.raised ==> r.calls == Others(participants, senderId))
  {
    if |participants| > 0 {
      var n := |participants| - 1;
      GroupRunShape(delivery, reg, entries, participants[..n], senderId, m, dirUp, faultOf, postOk);
    }
  }

  /** Once a call in the loop has thrown, the later participants change nothing. */
  lemma {:induction false} RaisedStays(delivery: MessageDeliveryService, reg: Registry, entries: map<int, string>,
                                       participants: seq<UserChat>, i: nat, senderId: int,
                                       m: Message, dirUp: int -> bool, faultOf: int -> SendFault, postOk: int -> bool)
    requires i <= |participants|
    requires GroupRunOf(delivery, reg, entries, participants[..i], senderId, m, dirUp, faultOf, postOk).effect.raised
    ensures GroupRunOf(delivery, reg, entries, participants, senderId, m, dirUp, faultOf, postOk)
         == GroupRunOf(delivery, reg, entries, participants[..i], senderId, m, dirUp, faultOf, postOk)
    decreases |participants|
  {
    if i < |participants| {
      var n := |participants| - 1;
      assert participants[..n][..i] == participants[..i];
      RaisedStays(delivery, reg, entries, participants[..n], i, senderId, m, dirUp, faultOf, postOk);
    } else {
      assert participants[..i] == participants;
    }
  }

  /** The run over one more participant: unchanged after an exception or for the sender, otherwise one more call. */
  lemma GroupRunStep(delivery: MessageDeliveryService, reg: Registry, entries: map<int, string>,
                     participants: seq<UserChat>, i: nat, senderId: int, m: Message,
                     dirUp: int -> bool, faultOf: int -> SendFault, postOk: int -> bool)
    requires i < |participants|
    ensures var prev := GroupRunOf(delivery, reg, entries, participants[..i], senderId, m, dirUp, faultOf, postOk);
      var u := participants[i].userId;
      GroupRunOf(delivery, reg, entries, participants[..i + 1], senderId, m, dirUp, faultOf, postOk)
      == if prev.effect.raised || u == senderId then prev
         else GroupRun(Then(prev.effect, delivery.DeliveryEffect(reg, entries, u, m, dirUp(u), faultOf(u), postOk(u))), prev.calls + [u])
  {
    assert participants[..i + 1][..i] == participants[..i];
  }

  /**
   * A failing directory read for participant `i` ends the loop there: the
   * later participants get no call, and the run throws.
   */
  lemma DirectoryFailureEndsGroup(delivery: MessageDeliveryService, reg: Registry, entries: map<int, string>,
                                  participants: seq<UserChat>, i: nat, senderId: int, m: Message,
                                  dirUp: int -> bool, faultOf: int -> SendFault, postOk: int -> bool)
    requires i < |participants| && participants[i].userId != senderId && !dirUp(participants[i].userId)
    requires !GroupRunOf(delivery, reg, entries, participants[..i], senderId, m, dirUp, faultOf, postOk).effect.raised
    ensures var prev := GroupRunOf(delivery, reg, entries, participants[..i], senderId, m, dirUp, faultOf, postOk);
      var r := GroupRunOf(delivery, reg, entries, participants, senderId, m, dirUp, faultOf, postOk);
      && r.effect.raised
      && r.calls == prev.calls + [participants[i].userId]
      && r.effect.frames == prev.effect.frames && r.effect.posts == prev.effect.posts
      && r.effect.retries == prev.effect.retries
  {
    GroupRunStep(delivery, reg, entries, participants, i, senderId, m, dirUp, faultOf, postOk);
    RaisedStays(delivery, reg, entries, participants, i + 1, senderId, m, dirUp, faultOf, postOk);
  }

  /** The delivery state after the group run `r`, from the state `(sent0, posts0, retries0, calls0)`. */
  ghost predicate Applied(r: GroupRun, sent0: seq<Frame>, posts0: seq<Post>, retries0: seq<RetryJob>, calls0: seq<int>,
                          sent: seq<Frame>, posts: seq<Post>, retries: seq<RetryJob>, calls: seq<int>, raised: bool)
  {
    && sent == sent0 + r.effect.frames
    && posts == posts0 + r.effect.posts
    && retries == retries0 + r.effect.retries
    && calls == calls0 + r.calls
    && raised == r.effect.raised
  }

  /** One more `deliverMessage` call extends the run by its effect. */
  lemma AppliedStep(prev: GroupRun, e: Effect, u: int,
                    sent0: seq<Frame>, posts0: seq<Post>, retries0: seq<RetryJob>, calls0: seq<int>,
                    sent: seq<Frame>, posts: seq<Post>, retries: seq<RetryJob>, calls: seq<int>)
    requires Applied(prev, sent0, posts0, retries0, calls0, sent, posts, retries, calls, false)
    ensures Applied(GroupRun(Then(prev.effect, e), prev.calls + [u]), sent0, posts0, retries0, calls0,
                    sent + e.frames, posts + e.posts, retries + e.retries, calls + [u], e.raised)
  {
  }

  class AsyncMessageDeliveryService {
    const delivery: MessageDeliveryService
    const table: UserChatTable
    /** The receivers passed to `deliverMessage`, oldest first. */
    var calls: seq<int>

    constructor (delivery: MessageDeliveryService, table: UserChatTable)
      ensures this.delivery == delivery && this.table == table && calls == []
    {
      this.delivery := delivery;
      this.table := table;
      calls := [];
    }

    /**
     * `deliverMessageToChatRoom`: the group path. `raised` is the
     * exception that ends the loop early, if any.
     */
    method DeliverMessageToChatRoom(senderId: int, chatRoomId: int, message: Message,
                                    dirUp: int -> bool, faultOf: int -> SendFault, postOk: int -> bool) returns (raised: bool)
      modifies this, delivery, delivery.sessions
      ensures var r := GroupRunOf(delivery, old(delivery.sessions.Reg()), delivery.sessions.directory.entries,
                                  FindActiveByChatRoomWithUser(table.rows, chatRoomId), senderId, message, dirUp, faultOf, postOk);
        Applied(r, old(delivery.sessions.sent), old(delivery.posts), old(delivery.retries), old(calls),
                delivery.sessions.sent, delivery.posts, delivery.retries, calls, raised)
      ensures delivery.sessions.Reg() == old(delivery.sessions.Reg()) && delivery.sessions.nextLock == old(delivery.sessions.nextLock)
    {
      var participants := FindActiveByChatRoomWithUser(table.rows, chatRoomId);
      ghost var reg, entries := delivery.sessions.Reg(), delivery.sessions.directory.entries;
      ghost var sent0, posts0, retries0, calls0 := delivery.sessions.sent, delivery.posts, delivery.retries, calls;
      raised := false;
      var i := 0;
      while i < |participants| && !raised
        invariant 0 <= i <= |participants|
        invariant Applied(GroupRunOf(delivery, reg, entries, participants[..i], senderId, message, dirUp, faultOf, postOk),
                          sent0, posts0, retries0, calls0, delivery.sessions.sent, delivery.posts, delivery.retries, calls, raised)
        invariant delivery.sessions.Reg() == reg && delivery.sessions.nextLock == old(delivery.sessions.nextLock)
      {
        ghost var prev := GroupRunOf(delivery, reg, entries, participants[..i], senderId, message, dirUp, faultOf, postOk);
        GroupRunStep(delivery, reg, entries, participants, i, senderId, message, dirUp, faultOf, postOk);
        var participantId := participants[i].userId;
        if participantId != senderId {
          ghost var e := delivery.DeliveryEffect(reg, entries, participantId, message, dirUp(participantId), faultOf(participantId), postOk(participantId));
          ghost var sent, posts, retries := delivery.sessions.sent, delivery.posts, delivery.retries;
          raised := delivery.DeliverMessage(participantId, message, dirUp(participantId), faultOf(participantId), postOk(participantId));
          AppliedStep(prev, e, participantId, sent0, posts0, retries0, calls0, sent, posts, retries, calls);
          calls := calls + [participantId];
        }
        i := i + 1;
      }
      if raised {
        RaisedStays(delivery, reg, entries, participants, i, senderId, message, dirUp, faultOf, postOk);
      } else {
        assert participants[..i] == participants;
      }
    }

    /**
     * `deliverMessageAsync`: look the message up; a missing message is an
     * error that is logged, and nothing is delivered. A receiver means one
     * `deliverMessage` to it; no receiver means the group path. Every
     * exception is caught here.
     */
    method DeliverMessageAsync(senderId: int, receiverId: Option<int>, chatRoomId: int, messageId: int,
                               messages: map<int, Message>, dirUp: int -> bool, faultOf: int -> SendFault, postOk: int -> bool)
      modifies this, delivery, delivery.sessions
      ensures messageId !in messages ==>
        && delivery.sessions.sent == old(delivery.sessions.sent)
        && delivery.posts == old(delivery.posts) && delivery.retries == old(delivery.retries)
        && calls == old(calls)
      ensures messageId in messages && receiverId.Some? ==>
        var e := delivery.DeliveryEffect(old(delivery.sessions.Reg()), delivery.sessions.directory.entries, receiverId.value,
                                         messages[messageId], dirUp(receiverId.value),
                                         faultOf(receiverId.value), postOk(receiverId.value));
        && delivery.sessions.sent == old(delivery.sessions.sent) + e.frames
        && delivery.posts == old(delivery.posts) + e.posts
        && delivery.retries == old(delivery.retries) + e.retries
        && calls == old(calls) + [receiverId.value]
      ensures messageId in messages && receiverId.None? ==>
        var r := GroupRunOf(delivery, old(delivery.sessions.Reg()), delivery.sessions.directory.entries,
                            FindActiveByChatRoomWithUser(table.rows, chatRoomId), senderId, messages[messageId], dirUp, faultOf, postOk);
        && delivery.sessions.sent == old(delivery.sessions.sent) + r.effect.frames
        && delivery.posts == old(delivery.posts) + r.effect.posts
        && delivery.retries == old(delivery.retries) + r.effect.retries
        && calls == old(calls) + r.calls
      ensures delivery.sessions.Reg() == old(delivery.sessions.Reg()) && delivery.sessions.nextLock == old(delivery.sessions.nextLock)
    {
      if messageId !in messages {
        return;
      }
      var message := messages[messageId];
      if receiverId.Some? {
        var r := receiverId.value;
        var _ := delivery.DeliverMessage(r, message, dirUp(r), faultOf(r), postOk(r));
        calls := calls + [r];
      } else {
        var _ := DeliverMessageToChatRoom(senderId, chatRoomId, message, dirUp, faultOf, postOk);
      }
    }
  }
}
