/**
 * MessageDeliveryService: route one message to one receiver by the Redis
 * directory (offline: drop; this server: send on the local session;
 * another server: POST it there), and forward to another server with a
 * bounded number of attempts and a linearly growing delay.
 *
 * HTTP is a log of the POSTs issued, each attempt's outcome is a
 * parameter, and the retry scheduler is a queue of pending retries that
 * `RunScheduledRetry` fires; its delays are recorded, not waited for.
 */
module MessageDelivery {
  import opened JavaLang
  import opened SessionManager

  /**
   * A stored message as the delivery side reads it: id, sender, text,
   * room, and the creation time as the value put into the payload.
   */
  datatype Message = Message(id: int, senderId: int, content: string, chatRoomId: int, createdAt: Value)

  /** Who a forward is for: one receiver, or a list of receivers on the same server. */
  datatype Dest = Single(receiverId: int) | Batch(receiverIds: seq<int>)

  /** One HTTP POST: its URL and its JSON body. */
  datatype Post = Post(url: string, body: Payload)

  /** A retry waiting on the scheduler: the attempt to repeat, its number, and its delay. */
  datatype RetryJob = RetryJob(targetServer: string, dest: Dest, message: Message, retryCount: int, delayMs: int)

  /** The scheduling decision after a failed attempt: the next attempt's number and delay. */
  datatype Retry = Retry(count: int, delayMs: int)

  const MESSAGE_KEYS: set<string> := {"messageId", "senderId", "content", "chatRoomId", "sentAt"}

  /** `createMessageData`: the five fields of the message as the payload map. */
  function CreateMessageData(m: Message): (p: Payload)
    ensures p.Keys == MESSAGE_KEYS
    ensures p["messageId"] == VNum(m.id) && p["senderId"] == VNum(m.senderId)
    ensures p["content"] == VStr(m.content) && p["chatRoomId"] == VNum(m.chatRoomId)
    ensures p["sentAt"] == m.createdAt
  {
    map["messageId" := VNum(m.id), "senderId" := VNum(m.senderId), "content" := VStr(m.content),
        "chatRoomId" := VNum(m.chatRoomId), "sentAt" := m.createdAt]
  }

  /** The receiver field a forward adds to the message data. */
  function DestField(dest: Dest): (string, Value)
  {
    match dest
    case Single(r) => ("receiverId", VNum(r))
    case Batch(rs) => ("receiverIds", VList(seq(|rs|, i requires 0 <= i < |rs| => VNum(rs[i]))))
  }

  /** The body of a forward: the message data plus `receiverId` or `receiverIds`. */
  function ForwardBody(dest: Dest, m: Message): (p: Payload)
    ensures p.Keys == MESSAGE_KEYS + {DestField(dest).0}
    ensures forall k :: k in MESSAGE_KEYS ==> p[k] == CreateMessageData(m)[k]
    ensures dest.Single? ==> p["receiverId"] == VNum(dest.receiverId)
    ensures dest.Batch? ==> p["receiverIds"].VList? && |p["receiverIds"].items| == |dest.receiverIds|
    ensures dest.Batch? ==> forall i :: 0 <= i < |dest.receiverIds| ==> p["receiverIds"].items[i] == VNum(dest.receiverIds[i])
  {
    var field := DestField(dest);
    CreateMessageData(m)[field.0 := field.1]
  }

  const LOOPBACK_PREFIX: string := "127.0.0.1:"

  /**
   * `normalizeServerAddress`: an address starting with `127.0.0.1:` has
   * that host replaced by `localhost`, keeping `:port`; the empty address
   * and every other address are returned as they are.
   */
  function NormalizeServerAddress(address: string): (r: string)
    ensures StartsWith(address, LOOPBACK_PREFIX) ==> r == "localhost:" + address[|LOOPBACK_PREFIX|..]
    ensures !StartsWith(address, LOOPBACK_PREFIX) ==> r == address
    ensures !StartsWith(r, LOOPBACK_PREFIX)
  {
    if |address| == 0 then address
    else if StartsWith(address, LOOPBACK_PREFIX) then
      var r := "localhost" + address[9..];
      assert r[..|LOOPBACK_PREFIX|][0] == 'l';
      r
    else address
  }

  /** Normalising a normalised address changes nothing. */
  lemma NormalizeIdempotent(address: string)
    ensures NormalizeServerAddress(NormalizeServerAddress(address)) == NormalizeServerAddress(address)
  {
  }

  /** The endpoint a forward is posted to on the target server. */
  function ForwardUrl(targetServer: string, dest: Dest): (url: string)
    ensures StartsWith(url, "http://" + NormalizeServerAddress(targetServer))
    ensures url[|"http://" + NormalizeServerAddress(targetServer)|..]
            == if dest.Single? then "/internal/message" else "/internal/message/batch"
  {
    var base := "http://" + NormalizeServerAddress(targetServer);
    var url := base + (if dest.Single? then "/internal/message" else "/internal/message/batch");
    assert url[..|base|] == base;
    assert url[|base|..] == (if dest.Single? then "/internal/message" else "/internal/message/batch");
    url
  }

  /**
   * After attempt number `retryCount` fails, the count is incremented and
   * another attempt is scheduled exactly when the new count is below
   * `maxRetries`, `baseDelayMs * count` milliseconds later (a Java `long`
   * product).
   */
  function NextRetry(retryCount: int, maxRetries: int, baseDelayMs: int): (r: Option<Retry>)
  {
    var count := retryCount + 1;
    if count < maxRetries then Some(Retry(count, WrapLong(baseDelayMs * count))) else None
  }

  /** The delays of the retries scheduled when every attempt from `retryCount` on fails. */
  function RetryDelays(retryCount: nat, maxRetries: int, baseDelayMs: int): (d: seq<int>)
    decreases maxRetries - retryCount
  {
    match NextRetry(retryCount, maxRetries, baseDelayMs)
    case None => []
    case Some(next) => [next.delayMs] + RetryDelays(next.count, maxRetries, baseDelayMs)
  }

  function Max(a: int, b: int): int { if a < b then b else a }

  /**
   * When every attempt fails, attempt `retryCount` is followed by
   * `maxRetries - retryCount - 1` retries (none once the cap is reached),
   * and the k-th retry waits `baseDelayMs * (retryCount + k + 1)`.
   */
  lemma {:induction false} RetryDelaysShape(retryCount: nat, maxRetries: int, baseDelayMs: int)
    requires IsLong(baseDelayMs * maxRetries) && baseDelayMs >= 0
    ensures |RetryDelays(retryCount, maxRetries, baseDelayMs)| == Max(0, maxRetries - retryCount - 1)
    ensures forall k :: 0 <= k < |RetryDelays(retryCount, maxRetries, baseDelayMs)| ==>
      RetryDelays(retryCount, maxRetries, baseDelayMs)[k] == baseDelayMs * (retryCount + k + 1)
    decreases maxRetries - retryCount
  {
    var d := RetryDelays(retryCount, maxRetries, baseDelayMs);
    var count := retryCount + 1;
    if count < maxRetries {
      assert 0 <= baseDelayMs * count <= baseDelayMs * maxRetries by {
        assert baseDelayMs * maxRetries - baseDelayMs * count == baseDelayMs * (maxRetries - count);
      }
      assert WrapLong(baseDelayMs * count) == baseDelayMs * count;
      RetryDelaysShape(count, maxRetries, baseDelayMs);
      var rest := RetryDelays(count, maxRetries, baseDelayMs);
      assert d == [baseDelayMs * count] + rest;
      forall k | 0 <= k < |d| ensures d[k] == baseDelayMs * (retryCount + k + 1) {
        if k > 0 { assert d[k] == rest[k - 1]; }
      }
    }
  }

  lemma MulStrict(b: int, x: int, y: int)
    requires b > 0 && x < y
    ensures b * x < b * y
  {
    assert b * y - b * x == b * (y - x);
  }

  /**
   * A forward that always fails is attempted `max(1, maxRetries)` times in
   * all, and with a positive base delay every retry waits strictly longer
   * than the one before.
   */
  lemma FailedForwardChain(maxRetries: int, baseDelayMs: int)
    requires IsLong(baseDelayMs * maxRetries) && baseDelayMs >= 0
    ensures 1 + |RetryDelays(0, maxRetries, baseDelayMs)| == Max(1, maxRetries)
    ensures baseDelayMs > 0 ==> forall i, j :: 0 <= i < j < |RetryDelays(0, maxRetries, baseDelayMs)| ==>
      RetryDelays(0, maxRetries, baseDelayMs)[i] < RetryDelays(0, maxRetries, baseDelayMs)[j]
  {
    RetryDelaysShape(0, maxRetries, baseDelayMs);
    var d := RetryDelays(0, maxRetries, baseDelayMs);
    if baseDelayMs > 0 {
      forall i, j | 0 <= i < j < |d| ensures d[i] < d[j] {
        MulStrict(baseDelayMs, i + 1, j + 1);
      }
    }
  }

  /** What one call into the delivery service does: frames written, POSTs issued, retries scheduled, and whether it threw. */
  datatype Effect = Effect(frames: seq<Frame>, posts: seq<Post>, retries: seq<RetryJob>, raised: bool)

  const NO_EFFECT: Effect := Effect([], [], [], false)

  class MessageDeliveryService {
    const sessions: SessionManager
    /** `message.forward.retry.max-retries` and `message.forward.retry.base-delay-ms`. */
    const maxRetries: int
    const baseDelayMs: int
    /** Every POST issued, successful or not, oldest first. */
    var posts: seq<Post>
    /** The retries waiting on the scheduler. */
    var retries: seq<RetryJob>

    constructor (sessions: SessionManager, maxRetries: int, baseDelayMs: int)
      requires IsInt(maxRetries) && IsLong(baseDelayMs)
      ensures this.sessions == sessions && this.maxRetries == maxRetries && this.baseDelayMs == baseDelayMs
      ensures posts == [] && retries == []
    {
      this.sessions := sessions;
      this.maxRetries := maxRetries;
      this.baseDelayMs := baseDelayMs;
      posts := [];
      retries := [];
    }

    /** The retry, if any, scheduled when attempt `retryCount` of this forward fails. */
    function RetryAfterFailure(targetServer: string, dest: Dest, message: Message, retryCount: int): (r: seq<RetryJob>)
      ensures |r| <= 1
      ensures |r| == 1 <==> NextRetry(retryCount, maxRetries, baseDelayMs).Some?
      ensures |r| == 1 ==> r[0].retryCount == retryCount + 1 && r[0].delayMs == NextRetry(retryCount, maxRetries, baseDelayMs).value.delayMs
      ensures |r| == 1 ==> r[0].targetServer == targetServer && r[0].dest == dest && r[0].message == message
    {
      match NextRetry(retryCount, maxRetries, baseDelayMs)
      case None => []
      case Some(next) => [RetryJob(targetServer, dest, message, next.count, next.delayMs)]
    }

    /** One forward attempt: one POST; on failure the retry it schedules. Failures never reach the caller. */
    function AttemptEffect(targetServer: string, dest: Dest, message: Message, retryCount: int, ok: bool): (e: Effect)
      ensures e.frames == [] && !e.raised
      ensures e.posts == [Post(ForwardUrl(targetServer, dest), ForwardBody(dest, message))]
      ensures ok ==> e.retries == []
    {
      var retry := if ok then [] else RetryAfterFailure(targetServer, dest, message, retryCount);
      Effect([], [Post(ForwardUrl(targetServer, dest), ForwardBody(dest, message))], retry, false)
    }

    /**
     * `deliverMessage(receiverId, message)` against the registry `reg` and
     * the directory `entries`: a failing directory read throws before
     * anything is sent; no directory entry, nothing; an entry naming this
     * server, one local send; any other entry, the first forward attempt
     * to that server.
     */
    function DeliveryEffect(reg: Registry, entries: map<int, string>, receiverId: int, message: Message,
                            directoryUp: bool, fault: SendFault, postOk: bool): (e: Effect)
      ensures !directoryUp ==> e == Effect([], [], [], true)
      ensures directoryUp && receiverId !in entries ==> e == NO_EFFECT
      ensures directoryUp && receiverId in entries && entries[receiverId] == sessions.serverAddress ==>
        e == Effect(FrameFor(reg, receiverId, CreateMessageData(message), fault), [], [],
                    Raises(reg, receiverId, fault))
      ensures directoryUp && receiverId in entries && entries[receiverId] != sessions.serverAddress ==>
        && e.frames == [] && !e.raised && |e.posts| == 1
        && e.posts[0] == Post(ForwardUrl(entries[receiverId], Single(receiverId)), ForwardBody(Single(receiverId), message))
        && (forall j :: j in e.retries ==> j.retryCount == 1)
      ensures forall f :: f in e.frames ==> f.userId == receiverId
    {
      if !directoryUp then Effect([], [], [], true)
      else if receiverId !in entries then NO_EFFECT
      else
        var target := entries[receiverId];
        if target == sessions.serverAddress then
          var data := CreateMessageData(message);
          Effect(FrameFor(reg, receiverId, data, fault), [], [], Raises(reg, receiverId, fault))
        else
          AttemptEffect(target, Single(receiverId), message, 0, postOk)
    }

    /** One POST of a forward (single or batch) at attempt `retryCount`, with outcome `ok`. */
    method Attempt(targetServer: string, dest: Dest, message: Message, retryCount: int, ok: bool)
      modifies this
      ensures var e := AttemptEffect(targetServer, dest, message, retryCount, ok);
        posts == old(posts) + e.posts && retries == old(retries) + e.retries
    {
      var address := NormalizeServerAddress(targetServer);
      var request := CreateMessageData(message);
      var field := DestField(dest);
      request := request[field.0 := field.1];
      var url := "http://" + address + (if dest.Single? then "/internal/message" else "/internal/message/batch");
      posts := posts + [Post(url, request)];
      if !ok {
        var count := retryCount + 1;
        if count < maxRetries {
          var delayMs := WrapLong(baseDelayMs * count);
          retries := retries + [RetryJob(targetServer, dest, message, count, delayMs)];
        }
      }
    }

    /**
     * `deliverMessage`; `directoryUp` is the outcome of the directory read,
     * whose failure nothing catches; `fault` is the local send's outcome,
     * `postOk` the first forward POST's.
     */
    method DeliverMessage(receiverId: int, message: Message, directoryUp: bool, fault: SendFault, postOk: bool)
      returns (raised: bool)
      modifies this, sessions
      ensures var e := DeliveryEffect(old(sessions.Reg()), sessions.directory.entries, receiverId, message,
                                      directoryUp, fault, postOk);
        && sessions.sent == old(sessions.sent) + e.frames
        && posts == old(posts) + e.posts
        && retries == old(retries) + e.retries
        && raised == e.raised
      ensures sessions.Reg() == old(sessions.Reg()) && sessions.nextLock == old(sessions.nextLock)
    {
      if !directoryUp {
        return true;
      }
      var target := sessions.directory.Lookup(receiverId);
      raised := false;
      if target.None? {
        return;
      }
      if target.value == sessions.serverAddress {
        raised := sessions.SendToUser(receiverId, CreateMessageData(message), fault);
      } else {
        Attempt(target.value, Single(receiverId), message, 0, postOk);
      }
    }

    /** `deliverMessageLocally`: one local send, whatever the directory says. */
    method DeliverMessageLocally(receiverId: int, message: Message, fault: SendFault) returns (raised: bool)
      modifies sessions
      ensures sessions.sent == old(sessions.sent) + FrameFor(old(sessions.Reg()), receiverId, CreateMessageData(message), fault)
      ensures raised == Raises(old(sessions.Reg()), receiverId, fault)
      ensures sessions.Reg() == old(sessions.Reg()) && sessions.nextLock == old(sessions.nextLock)
    {
      raised := sessions.SendToUser(receiverId, CreateMessageData(message), fault);
    }

    /** `deliverMessageBatch`: the first batch forward attempt to `targetServer`. */
    method DeliverMessageBatch(targetServer: string, receiverIds: seq<int>, message: Message, ok: bool)
      modifies this
      ensures posts == old(posts) + [Post(ForwardUrl(targetServer, Batch(receiverIds)), ForwardBody(Batch(receiverIds), message))]
      ensures retries == old(retries) + (if ok then [] else RetryAfterFailure(targetServer, Batch(receiverIds), message, 0))
    {
      Attempt(targetServer, Batch(receiverIds), message, 0, ok);
    }

    /** The scheduler runs retry `i`: it leaves the queue and its attempt is made with outcome `ok`. */
    method RunScheduledRetry(i: nat, ok: bool)
      requires i < |retries|
      modifies this
      ensures var job := old(retries[i]);
        var e := AttemptEffect(job.targetServer, job.dest, job.message, job.retryCount, ok);
        && posts == old(posts) + e.posts
        && retries == old(retries[..i] + retries[i + 1..]) + e.retries
    {
      var job := retries[i];
      retries := retries[..i] + retries[i + 1..];
      Attempt(job.targetServer, job.dest, job.message, job.retryCount, ok);
    }
  }
}
