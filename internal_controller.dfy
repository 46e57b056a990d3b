/**
 * InternalMessageController: the receiving end of a forward. The single
 * endpoint parses one receiver and the message fields out of the JSON
 * body and sends one frame; the batch endpoint does the same for a list
 * of receivers. Any parse failure, and any exception from a single send,
 * becomes a RuntimeException (an HTTP error back to the forwarding
 * server, which then retries).
 *
 * The request body is the map Jackson produces: a whole number is a
 * `VNum` whichever boxed type Jackson chose, except where the code casts
 * to `Integer` (see `BatchIds`).
 */
module InternalController {
  import opened JavaLang
  import opened SessionManager
  import opened MessageDelivery

  /** A parsed single request: the receiver and the frame payload. */
  datatype Received = Received(receiverId: int, payload: Payload)

  /** A parsed batch request: the receivers, in order, and the frame payload. */
  datatype ReceivedBatch = ReceivedBatch(receiverIds: seq<int>, payload: Payload)

  /** `sentAt != null ? sentAt.toString() : ""` for `request.get("sentAt")`. */
  function SentAtText(request: Payload): (s: string)
    ensures "sentAt" !in request || request["sentAt"] == VNull ==> s == ""
  {
    if "sentAt" in request && request["sentAt"] != VNull then Render(request["sentAt"]) else ""
  }

  /**
   * The frame payload both endpoints build: the three ids through
   * `Long.valueOf(x.toString())`, the text through `toString()` (a missing
   * one is a NullPointerException), and `sentAt` as text. `None` is the
   * exception.
   */
  function ParsePayload(request: Payload): (p: Option<Payload>)
    ensures p.Some? <==> (LongField(request, "messageId").Some? && LongField(request, "senderId").Some?
      && LongField(request, "chatRoomId").Some? && "content" in request && request["content"] != VNull)
    ensures p.Some? ==> p.value.Keys == MESSAGE_KEYS
    ensures p.Some? ==> (p.value["messageId"] == VNum(LongField(request, "messageId").value)
      && p.value["senderId"] == VNum(LongField(request, "senderId").value)
      && p.value["chatRoomId"] == VNum(LongField(request, "chatRoomId").value)
      && p.value["content"] == VStr(Render(request["content"]))
      && p.value["sentAt"] == VStr(SentAtText(request)))
  {
    var messageId := LongField(request, "messageId");
    var senderId := LongField(request, "senderId");
    var chatRoomId := LongField(request, "chatRoomId");
    if messageId.None? || senderId.None? || chatRoomId.None? || "content" !in request || request["content"] == VNull then None
    else
      Some(map["messageId" := VNum(messageId.value), "senderId" := VNum(senderId.value),
               "content" := VStr(Render(request["content"])), "chatRoomId" := VNum(chatRoomId.value),
               "sentAt" := VStr(SentAtText(request))])
  }

  /** The single endpoint's parse: `receiverId` as a long, then the payload. */
  function ParseSingle(request: Payload): (r: Option<Received>)
    ensures r.Some? <==> LongField(request, "receiverId").Some? && ParsePayload(request).Some?
    ensures r.Some? ==> r.value == Received(LongField(request, "receiverId").value, ParsePayload(request).value)
  {
    var receiverId := LongField(request, "receiverId");
    var payload := ParsePayload(request);
    if receiverId.None? || payload.None? then None else Some(Received(receiverId.value, payload.value))
  }

  predicate IsIntNumber(v: Value)
  {
    v.VNum? && IsInt(v.n)
  }

  /**
   * `(List<Integer>) request.get("receiverIds")` mapped through
   * `Integer::longValue`: a list whose every item Jackson read as an
   * `Integer`. A missing list or a null item is a NullPointerException;
   * anything else, including a number outside the `int` range (read as a
   * `Long`), is a ClassCastException.
   */
  function BatchIds(request: Payload): (ids: Option<seq<int>>)
    ensures ids.Some? <==> ("receiverIds" in request && request["receiverIds"].VList?
      && forall i :: 0 <= i < |request["receiverIds"].items| ==> IsIntNumber(request["receiverIds"].items[i]))
    ensures ids.Some? ==> (|ids.value| == |request["receiverIds"].items|
      && forall i :: 0 <= i < |ids.value| ==> request["receiverIds"].items[i] == VNum(ids.value[i]))
  {
    if "receiverIds" !in request || !request["receiverIds"].VList? then None
    else
      var items := request["receiverIds"].items;
      if forall i :: 0 <= i < |items| ==> IsIntNumber(items[i]) then
        Some(seq(|items|, i requires 0 <= i < |items| && IsIntNumber(items[i]) => items[i].n))
      else None
  }

  /** The batch endpoint's parse: the receiver list, then the payload. */
  function ParseBatch(request: Payload): (r: Option<ReceivedBatch>)
    ensures r.Some? <==> BatchIds(request).Some? && ParsePayload(request).Some?
    ensures r.Some? ==> r.value == ReceivedBatch(BatchIds(request).value, ParsePayload(request).value)
  {
    var ids := BatchIds(request);
    var payload := ParsePayload(request);
    if ids.None? || payload.None? then None else Some(ReceivedBatch(ids.value, payload.value))
  }

  /** The payload a receiving server builds for a forwarded message: `sentAt` turned into text. */
  function ForwardedPayload(m: Message): Payload
  {
    map["messageId" := VNum(m.id), "senderId" := VNum(m.senderId), "content" := VStr(m.content),
        "chatRoomId" := VNum(m.chatRoomId), "sentAt" := VStr(if m.createdAt == VNull then "" else Render(m.createdAt))]
  }

  /** Every field of a sent message fits a Java `long`. */
  predicate LongIds(m: Message)
  {
    IsLong(m.id) && IsLong(m.senderId) && IsLong(m.chatRoomId)
  }

  lemma ParsePayloadOfForward(dest: Dest, m: Message)
    requires LongIds(m)
    ensures ParsePayload(ForwardBody(dest, m)) == Some(ForwardedPayload(m))
  {
    var body := ForwardBody(dest, m);
    LongFieldOfNumber(body, "messageId", m.id);
    LongFieldOfNumber(body, "senderId", m.senderId);
    LongFieldOfNumber(body, "chatRoomId", m.chatRoomId);
    assert Render(body["content"]) == m.content;
  }

  /**
   * A single forward is parsed back into its receiver and the message's
   * fields: what `forwardToOtherServerWithRetry` posts,
   * `receiveMessageFromOtherServer` accepts.
   */
  lemma SingleForwardRoundTrip(receiverId: int, m: Message)
    requires IsLong(receiverId) && LongIds(m)
    ensures ParseSingle(ForwardBody(Single(receiverId), m)) == Some(Received(receiverId, ForwardedPayload(m)))
  {
    LongFieldOfNumber(ForwardBody(Single(receiverId), m), "receiverId", receiverId);
    ParsePayloadOfForward(Single(receiverId), m);
  }

  /** A batch forward whose receiver ids all fit an `int` is parsed back into the same receivers, in order. */
  lemma BatchForwardRoundTrip(receiverIds: seq<int>, m: Message)
    requires forall i :: 0 <= i < |receiverIds| ==> IsInt(receiverIds[i])
    requires LongIds(m)
    ensures ParseBatch(ForwardBody(Batch(receiverIds), m)) == Some(ReceivedBatch(receiverIds, ForwardedPayload(m)))
  {
    var body := ForwardBody(Batch(receiverIds), m);
    ParsePayloadOfForward(Batch(receiverIds), m);
    assert BatchIds(body).Some?;
    assert BatchIds(body).value == receiverIds;
  }

  /** A batch forward naming a receiver id beyond the `int` range is rejected as a whole. */
  lemma BatchForwardRejectsWideId(receiverIds: seq<int>, m: Message, k: int)
    requires 0 <= k < |receiverIds| && !IsInt(receiverIds[k])
    ensures ParseBatch(ForwardBody(Batch(receiverIds), m)).None?
  {
    var body := ForwardBody(Batch(receiverIds), m);
    assert !IsIntNumber(body["receiverIds"].items[k]);
  }

  class InternalMessageController {
    const sessions: SessionManager

    constructor (sessions: SessionManager)
      ensures this.sessions == sessions
    {
      this.sessions := sessions;
    }

    /**
     * `receiveMessageFromOtherServer`: parse, then one `sendToUser`.
     * `rejected` is the RuntimeException the endpoint throws, on a parse
     * failure or an unchecked failure of the send.
     */
    method ReceiveMessageFromOtherServer(request: Payload, fault: SendFault) returns (rejected: bool)
      modifies sessions
      ensures ParseSingle(request).None? ==> rejected && sessions.sent == old(sessions.sent)
      ensures ParseSingle(request).Some? ==>
        var r := ParseSingle(request).value;
        && sessions.sent == old(sessions.sent) + FrameFor(old(sessions.Reg()), r.receiverId, r.payload, fault)
        && rejected == Raises(old(sessions.Reg()), r.receiverId, fault)
      ensures sessions.Reg() == old(sessions.Reg()) && sessions.nextLock == old(sessions.nextLock)
    {
      var parsed := ParseSingle(request);
      if parsed.None? {
        return true;
      }
      rejected := sessions.SendToUser(parsed.value.receiverId, parsed.value.payload, fault);
    }

    /**
     * `receiveMessageBatch`: parse, then one `sendToUser` per receiver in
     * order with the same payload; a send that throws is logged and
     * skipped, and `successCount` counts the others.
     */
    method ReceiveMessageBatch(request: Payload, faultOf: int -> SendFault) returns (rejected: bool, successCount: nat)
      modifies sessions
      ensures ParseBatch(request).None? ==> rejected && successCount == 0 && sessions.sent == old(sessions.sent)
      ensures ParseBatch(request).Some? ==>
        var b := ParseBatch(request).value;
        && !rejected
        && sessions.sent == old(sessions.sent) + FramesFor(old(sessions.Reg()), b.receiverIds, b.payload, faultOf)
        && successCount == |b.receiverIds| - CountRaising(old(sessions.Reg()), b.receiverIds, faultOf)
        && successCount <= |b.receiverIds|
      ensures sessions.Reg() == old(sessions.Reg()) && sessions.nextLock == old(sessions.nextLock)
    {
      successCount := 0;
      var parsed := ParseBatch(request);
      if parsed.None? {
        return true, 0;
      }
      rejected := false;
      successCount := SendToEach(parsed.value.receiverIds, parsed.value.payload, faultOf);
    }

    /** The loop of `receiveMessageBatch` over the parsed receivers. */
    method SendToEach(receiverIds: seq<int>, payload: Payload, faultOf: int -> SendFault) returns (successCount: nat)
      modifies sessions
      ensures sessions.sent == old(sessions.sent) + FramesFor(old(sessions.Reg()), receiverIds, payload, faultOf)
      ensures successCount == |receiverIds| - CountRaising(old(sessions.Reg()), receiverIds, faultOf)
      ensures sessions.Reg() == old(sessions.Reg()) && sessions.nextLock == old(sessions.nextLock)
    {
      successCount := 0;
      ghost var reg, sent0 := sessions.Reg(), sessions.sent;
      ghost var fails: nat := 0;
      var k := 0;
      while k < |receiverIds|
        invariant 0 <= k <= |receiverIds|
        invariant Delivered(reg, receiverIds, k, payload, faultOf, sent0, sessions.sent, fails)
        invariant successCount + fails == k
        invariant sessions.Reg() == reg && sessions.nextLock == old(sessions.nextLock)
      {
        DeliveredStep(reg, receiverIds, k, payload, faultOf, sent0, sessions.sent, fails);
        var raised := sessions.SendToUser(receiverIds[k], payload, faultOf(receiverIds[k]));
        if !raised {
          successCount := successCount + 1;
        } else {
          fails := fails + 1;
        }
        k := k + 1;
      }
      assert receiverIds[..k] == receiverIds;
    }
  }
}
