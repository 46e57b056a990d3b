/**
 * ChatMessageConsumer: every server consumes each chat message event from
 * the `chat-messages` topic and delivers it to those active members of the
 * room, other than the sender, whose directory entry names this server.
 * The event is acknowledged only when processing finishes; an exception
 * that escapes leaves it unacknowledged for redelivery.
 */
module ChatMessageConsumer {
  import opened JavaLang
  import opened UserChatRepository
  import opened SessionManager
  import opened MessageDelivery

  /**
   * A chat message event. Every field is a Java reference and may be null
   * (`None`); the creation time is held as its `toString`.
   */
  datatype ChatMessageEvent = ChatMessageEvent(
    messageId: Option<int>,
    senderId: Option<int>,
    content: Option<string>,
    chatRoomId: Option<int>,
    createdAt: Option<string>)

  /**
   * The frame payload built from the event with `Map.of`, which throws on
   * a null value (and `toString` on a null time throws first): `None` when
   * any of the five fields is null.
   */
  function EventPayload(event: ChatMessageEvent): (p: Option<Payload>)
    ensures p.Some? <==> && event.messageId.Some? && event.senderId.Some? && event.content.Some?
                         && event.chatRoomId.Some? && event.createdAt.Some?
    ensures p.Some? ==> p.value.Keys == MESSAGE_KEYS
    ensures p.Some? ==> p.value["messageId"] == VNum(event.messageId.value) && p.value["senderId"] == VNum(event.senderId.value)
    ensures p.Some? ==> p.value["content"] == VStr(event.content.value) && p.value["chatRoomId"] == VNum(event.chatRoomId.value)
    ensures p.Some? ==> p.value["sentAt"] == VStr(event.createdAt.value)
  {
    if event.messageId.None? || event.senderId.None? || event.content.None?
       || event.chatRoomId.None? || event.createdAt.None? then None
    else
      Some(map["messageId" := VNum(event.messageId.value), "senderId" := VNum(event.senderId.value),
               "content" := VStr(event.content.value), "chatRoomId" := VNum(event.chatRoomId.value),
               "sentAt" := VStr(event.createdAt.value)])
  }

  /** The directory `MGET` of the participants' keys, aligned by index; `None` where there is no entry. */
  function ServersOf(directory: Directory, participants: seq<UserChat>): (servers: seq<Option<string>>)
    reads directory
    ensures |servers| == |participants|
    ensures forall i :: 0 <= i < |participants| ==> servers[i] == directory.Lookup(participants[i].userId)
  {
    seq(|participants|, i requires 0 <= i < |participants| reads directory => directory.Lookup(participants[i].userId))
  }

  /**
   * The participants this server delivers to, in participant order: the
   * ones that are not the sender and whose directory entry equals
   * `myServer`. A null sender id equals no participant, so nobody is
   * skipped then.
   */
  function LocalRecipients(participants: seq<UserChat>, servers: seq<Option<string>>, senderId: Option<int>, myServer: string): (users: seq<int>)
    requires |servers| == |participants|
    ensures |users| <= |participants|
    ensures forall u :: u in users ==> Some(u) != senderId
  {
    if |participants| == 0 then []
    else
      var n := |participants| - 1;
      var init := LocalRecipients(participants[..n], servers[..n], senderId, myServer);
      var userId := participants[n].userId;
      if Some(userId) != senderId && servers[n] == Some(myServer) then init + [userId] else init
  }

  /** A user is selected exactly when some participant is that user, is not the sender, and is on this server. */
  lemma {:induction false} LocalRecipientsExactly(participants: seq<UserChat>, servers: seq<Option<string>>, senderId: Option<int>, myServer: string)
    requires |servers| == |participants|
    ensures forall u :: u in LocalRecipients(participants, servers, senderId, myServer) <==>
      exists i :: 0 <= i < |participants| && participants[i].userId == u && Some(u) != senderId && servers[i] == Some(myServer)
  {
    if |participants| > 0 {
      var n := |participants| - 1;
      LocalRecipientsExactly(participants[..n], servers[..n], senderId, myServer);
      forall u
        ensures u in LocalRecipients(participants, servers, senderId, myServer) <==>
          exists i :: 0 <= i < |participants| && participants[i].userId == u && Some(u) != senderId && servers[i] == Some(myServer)
      {
        if exists i :: 0 <= i < |participants| && participants[i].userId == u && Some(u) != senderId && servers[i] == Some(myServer) {
          var i :| 0 <= i < |participants| && participants[i].userId == u && Some(u) != senderId && servers[i] == Some(myServer);
          if i < n {
            assert participants[..n][i] == participants[i] && servers[..n][i] == servers[i];
          }
        }
      }
    }
  }

  class ChatMessageConsumer {
    const table: UserChatTable
    const sessions: SessionManager

    constructor (table: UserChatTable, sessions: SessionManager)
      ensures this.table == table && this.sessions == sessions
    {
      this.table := table;
      this.sessions := sessions;
    }

    /** The index loop that builds `myUsers` from the participants and their aligned directory entries. */
    static method SelectLocalUsers(participants: seq<UserChat>, servers: seq<Option<string>>, senderId: Option<int>, myServer: string)
      returns (myUsers: seq<int>)
      requires |servers| == |participants|
      ensures myUsers == LocalRecipients(participants, servers, senderId, myServer)
    {
      myUsers := [];
      var i := 0;
      while i < |participants|
        invariant 0 <= i <= |participants|
        invariant myUsers == LocalRecipients(participants[..i], servers[..i], senderId, myServer)
      {
        assert participants[..i + 1][..i] == participants[..i];
        assert servers[..i + 1][..i] == servers[..i];
        var userId := participants[i].userId;
        if Some(userId) != senderId && servers[i] == Some(myServer) {
          myUsers := myUsers + [userId];
        }
        i := i + 1;
      }
      assert participants[..i] == participants && servers[..i] == servers;
    }

    /**
     * The delivery loop: one `sendToUser` per user in order; a send that
     * throws is counted as a failure and the loop goes on.
     */
    method DeliverAll(users: seq<int>, payload: Payload, faultOf: int -> SendFault)
      returns (successCount: nat, failCount: nat)
      modifies sessions
      ensures sessions.sent == old(sessions.sent) + FramesFor(old(sessions.Reg()), users, payload, faultOf)
      ensures failCount == CountRaising(old(sessions.Reg()), users, faultOf)
      ensures successCount + failCount == |users|
      ensures sessions.Reg() == old(sessions.Reg()) && sessions.nextLock == old(sessions.nextLock)
    {
      successCount, failCount := 0, 0;
      ghost var reg, sent0 := sessions.Reg(), sessions.sent;
      var k := 0;
      while k < |users|
        invariant 0 <= k <= |users|
        invariant Delivered(reg, users, k, payload, faultOf, sent0, sessions.sent, failCount)
        invariant successCount + failCount == k
        invariant sessions.Reg() == reg && sessions.nextLock == old(sessions.nextLock)
      {
        DeliveredStep(reg, users, k, payload, faultOf, sent0, sessions.sent, failCount);
        var raised := sessions.SendToUser(users[k], payload, faultOf(users[k]));
        if raised {
          failCount := failCount + 1;
        } else {
          successCount := successCount + 1;
        }
        k := k + 1;
      }
      assert users[..k] == users;
    }

    /**
     * `consumeMessage`. `directoryUp` is whether the directory `MGET`
     * succeeds and `faultOf(u)` is the transport outcome of the send to
     * `u`. Returns whether the event is acknowledged, and the success and
     * failure counts of the delivery loop.
     */
    method ConsumeMessage(event: ChatMessageEvent, directoryUp: bool, faultOf: int -> SendFault)
      returns (acked: bool, successCount: nat, failCount: nat)
      modifies sessions
      ensures var participants := if event.chatRoomId.None? then [] else FindActiveByChatRoomWithUser(table.rows, event.chatRoomId.value);
        var users := LocalRecipients(participants, ServersOf(sessions.directory, participants), event.senderId, sessions.serverAddress);
        if participants == [] then
          acked && sessions.sent == old(sessions.sent) && successCount == failCount == 0
        else if !directoryUp || EventPayload(event).None? then
          !acked && sessions.sent == old(sessions.sent) && successCount == failCount == 0
        else
          && acked
          && sessions.sent == old(sessions.sent) + FramesFor(old(sessions.Reg()), users, EventPayload(event).value, faultOf)
          && failCount == CountRaising(old(sessions.Reg()), users, faultOf)
          && successCount + failCount == |users|
      ensures sessions.Reg() == old(sessions.Reg()) && sessions.nextLock == old(sessions.nextLock)
    {
      acked, successCount, failCount := false, 0, 0;
      var myServer := sessions.serverAddress;
      // `uc.chatRoom.id = NULL` matches no row.
      var participants := if event.chatRoomId.None? then [] else FindActiveByChatRoomWithUser(table.rows, event.chatRoomId.value);
      if |participants| == 0 {
        acked := true;
        return;
      }
      if !directoryUp {
        return;
      }
      var servers := ServersOf(sessions.directory, participants);

      var myUsers := SelectLocalUsers(participants, servers, event.senderId, myServer);

      var payload := EventPayload(event);
      if payload.None? {
        return;
      }

      successCount, failCount := DeliverAll(myUsers, payload.value, faultOf);
      acked := true;
    }
  }
}
