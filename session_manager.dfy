/**
 * SessionManager: this server's registry of open WebSocket sessions (one
 * per user, with a per-user send lock) mirrored into the shared Redis
 * directory `user:{id}` -> server address, and the guarded send of one
 * JSON frame to a user.
 *
 * The directory is shared by every server; it is its own object here so
 * that the delivery side reads the same entries the registry writes. Its
 * keys are user ids: the Redis key `DirectoryKey(id)` is injective, so the
 * two views hold the same information. Jackson serialisation is not
 * modelled: a frame records the payload map itself.
 */
module SessionManager {
  import opened JavaLang

  /** The `Map<String, Object>` handed to `sendToUser`. */
  type Payload = map<string, Value>

  /** A WebSocket session as the registry sees it: its id and whether it is still open. */
  datatype Session = Session(id: int, open: bool)

  /**
   * What the transport does with one send: succeed, fail with an
   * IOException (the JSON write or the socket write), or fail with an
   * unchecked exception.
   */
  datatype SendFault = NoFault | IoFault | RuntimeFault

  /** One text frame written to a user's session. */
  datatype Frame = Frame(userId: int, sessionId: int, payload: Payload)

  /** The Redis key of a user's directory entry. */
  function DirectoryKey(userId: int): (k: string)
    ensures StartsWith(k, "user:")
    ensures k[|"user:"|..] == Show(userId)
  {
    "user:" + Show(userId)
  }

  /** Distinct users have distinct directory keys. */
  lemma DirectoryKeyInjective(a: int, b: int)
    ensures DirectoryKey(a) == DirectoryKey(b) ==> a == b
  {
    if DirectoryKey(a) == DirectoryKey(b) {
      assert Show(a) == DirectoryKey(a)[5..] == DirectoryKey(b)[5..] == Show(b);
      ShowInjective(a, b);
    }
  }

  /** The Redis directory `user:{id}` -> address of the server holding the user's session. */
  class Directory {
    var entries: map<int, string>

    constructor ()
      ensures entries == map[]
    {
      entries := map[];
    }

    /** `GET user:{id}`; `None` is Redis' null. */
    function Lookup(userId: int): (r: Option<string>)
      reads this
      ensures r.Some? <==> userId in entries
      ensures r.Some? ==> r.value == entries[userId]
    {
      if userId in entries then Some(entries[userId]) else None
    }
  }

  /** The local registry as a value: sessions and locks by user id. */
  datatype Registry = Registry(userSessions: map<int, Session>, sessionLocks: map<int, nat>)

  /** The guard of `sendToUser`: a session is present, open, and has a lock. */
  predicate CanSend(reg: Registry, userId: int)
  {
    userId in reg.userSessions && reg.userSessions[userId].open && userId in reg.sessionLocks
  }

  /** The frames one `sendToUser` call writes: one when it may send and the transport succeeds. */
  function FrameFor(reg: Registry, userId: int, payload: Payload, fault: SendFault): (r: seq<Frame>)
    ensures |r| <= 1
    ensures |r| == 1 <==> CanSend(reg, userId) && fault == NoFault
    ensures |r| == 1 ==> r[0] == Frame(userId, reg.userSessions[userId].id, payload)
  {
    if CanSend(reg, userId) && fault == NoFault then [Frame(userId, reg.userSessions[userId].id, payload)] else []
  }

  /** Whether one `sendToUser` call throws to its caller: only an unchecked failure of an actual send. */
  predicate Raises(reg: Registry, userId: int, fault: SendFault)
  {
    CanSend(reg, userId) && fault == RuntimeFault
  }

  /**
   * The frames written by one `sendToUser(users[k], payload)` per user in
   * order, each seeing `faultOf(users[k])`, when every failure is caught.
   */
  function FramesFor(reg: Registry, users: seq<int>, payload: Payload, faultOf: int -> SendFault): (r: seq<Frame>)
    ensures |r| <= |users|
    ensures forall f :: f in r ==> f.payload == payload && f.userId in users && CanSend(reg, f.userId)
  {
    if |users| == 0 then []
    else
      var init := FramesFor(reg, users[..|users| - 1], payload, faultOf);
      init + FrameFor(reg, users[|users| - 1], payload, faultOf(users[|users| - 1]))
  }

  /** How many of those calls throw. */
  function CountRaising(reg: Registry, users: seq<int>, faultOf: int -> SendFault): (n: nat)
    ensures n <= |users|
  {
    if |users| == 0 then 0
    else
      CountRaising(reg, users[..|users| - 1], faultOf)
      + (if Raises(reg, users[|users| - 1], faultOf(users[|users| - 1])) then 1 else 0)
  }

  /** One more send extends the frames and the count of throwing sends by that send alone. */
  lemma FramesStep(reg: Registry, users: seq<int>, k: nat, payload: Payload, faultOf: int -> SendFault)
    requires k < |users|
    ensures FramesFor(reg, users[..k + 1], payload, faultOf)
         == FramesFor(reg, users[..k], payload, faultOf) + FrameFor(reg, users[k], payload, faultOf(users[k]))
    ensures CountRaising(reg, users[..k + 1], faultOf)
         == CountRaising(reg, users[..k], faultOf) + (if Raises(reg, users[k], faultOf(users[k])) then 1 else 0)
  {
    assert users[..k + 1][..k] == users[..k];
  }

  /**
   * The state after the first `k` sends of a loop over `users` that catches
   * every failure: the frames written since `sent0`, and `fails` throwing sends.
   */
  ghost predicate Delivered(reg: Registry, users: seq<int>, k: nat, payload: Payload, faultOf: int -> SendFault,
                            sent0: seq<Frame>, sent: seq<Frame>, fails: nat)
    requires k <= |users|
  {
    sent == sent0 + FramesFor(reg, users[..k], payload, faultOf) && fails == CountRaising(reg, users[..k], faultOf)
  }

  /** The loop state after one more send. */
  lemma DeliveredStep(reg: Registry, users: seq<int>, k: nat, payload: Payload, faultOf: int -> SendFault,
                      sent0: seq<Frame>, sent: seq<Frame>, fails: nat)
    requires k < |users|
    requires Delivered(reg, users, k, payload, faultOf, sent0, sent, fails)
    ensures Delivered(reg, users, k + 1, payload, faultOf, sent0,
                      sent + FrameFor(reg, users[k], payload, faultOf(users[k])),
                      fails + if Raises(reg, users[k], faultOf(users[k])) then 1 else 0)
  {
    FramesStep(reg, users, k, payload, faultOf);
  }

  class SessionManager {
    /** `ServerInfoProvider.getServerAddress()`: `localhost:{port}`. */
    const serverAddress: string
    const directory: Directory
    var userSessions: map<int, Session>
    /** Lock objects, by identity: a fresh lock is `nextLock`. */
    var sessionLocks: map<int, nat>
    var nextLock: nat
    /** Every frame written so far, oldest first. */
    var sent: seq<Frame>

    /** A registered user always has a lock and a user with a lock is registered. */
    predicate Valid()
      reads this`userSessions, this`sessionLocks
    {
      userSessions.Keys == sessionLocks.Keys
    }

    constructor (port: int, directory: Directory)
      ensures serverAddress == "localhost:" + Show(port) && this.directory == directory
      ensures userSessions == map[] && sessionLocks == map[] && sent == []
      ensures Valid()
    {
      serverAddress := "localhost:" + Show(port);
      this.directory := directory;
      userSessions := map[];
      sessionLocks := map[];
      nextLock := 0;
      sent := [];
    }

    /** The two maps the send guard looks at. */
    function Reg(): Registry
      reads this`userSessions, this`sessionLocks
    {
      Registry(userSessions, sessionLocks)
    }

    /**
     * `addSession`: put the session (replacing an earlier one), create a
     * lock only if none exists, and write the directory entry unless Redis
     * fails (`directoryUp` false), which leaves the local registration in
     * place without an error.
     */
    method AddSession(userId: int, session: Session, directoryUp: bool)
      modifies this, directory
      ensures userSessions == old(userSessions)[userId := session]
      ensures sessionLocks == if userId in old(sessionLocks) then old(sessionLocks)
                              else old(sessionLocks)[userId := old(nextLock)]
      ensures userId !in old(sessionLocks) ==> nextLock == old(nextLock) + 1
      ensures userId in old(sessionLocks) ==> nextLock == old(nextLock)
      ensures directory.entries == if directoryUp then old(directory.entries)[userId := serverAddress]
                                   else old(directory.entries)
      ensures sent == old(sent)
      ensures old(Valid()) ==> Valid()
      ensures IsUserConnected(userId)
      ensures SessionCount() == old(SessionCount()) + (if userId in old(userSessions) then 0 else 1)
    {
      userSessions := userSessions[userId := session];
      if userId !in sessionLocks {
        sessionLocks := sessionLocks[userId := nextLock];
        nextLock := nextLock + 1;
      }
      if directoryUp {
        directory.entries := directory.entries[userId := serverAddress];
      }
    }

    /**
     * `removeSession`: drop the session and its lock, then delete the
     * directory entry. The delete is not guarded: when the directory is
     * down the local maps are already cleared, the stale `user:{id}` entry
     * stays, and the failure reaches the caller (`raised`).
     */
    method RemoveSession(userId: int, directoryUp: bool) returns (raised: bool)
      modifies this, directory
      ensures userSessions == old(userSessions) - {userId}
      ensures sessionLocks == old(sessionLocks) - {userId}
      ensures directory.entries == if directoryUp then old(directory.entries) - {userId}
                                   else old(directory.entries)
      ensures raised == !directoryUp
      ensures nextLock == old(nextLock) && sent == old(sent)
      ensures old(Valid()) ==> Valid()
      ensures !IsUserConnected(userId)
      ensures SessionCount() == old(SessionCount()) - (if userId in old(userSessions) then 1 else 0)
    {
      userSessions := userSessions - {userId};
      sessionLocks := sessionLocks - {userId};
      if directoryUp {
        directory.entries := directory.entries - {userId};
        raised := false;
      } else {
        raised := true;
      }
    }

    /** The peer closed the connection: the session stays registered but is no longer open. */
    method TransportClosed(userId: int)
      modifies this
      ensures userId in old(userSessions) ==>
        userSessions == old(userSessions)[userId := old(userSessions)[userId].(open := false)]
      ensures userId !in old(userSessions) ==> userSessions == old(userSessions)
      ensures sessionLocks == old(sessionLocks) && nextLock == old(nextLock) && sent == old(sent)
      ensures !CanSend(Reg(), userId)
      ensures old(Valid()) ==> Valid()
    {
      if userId in userSessions {
        userSessions := userSessions[userId := userSessions[userId].(open := false)];
      }
    }

    /**
     * `sendToUser`: write one frame only if the session is present, open
     * and locked and the transport succeeds. An IOException is logged and
     * swallowed; an unchecked exception reaches the caller (`raised`).
     */
    method SendToUser(userId: int, payload: Payload, fault: SendFault) returns (raised: bool)
      modifies this
      ensures sent == old(sent) + FrameFor(old(Reg()), userId, payload, fault)
      ensures raised == Raises(old(Reg()), userId, fault)
      ensures Reg() == old(Reg()) && nextLock == old(nextLock)
      ensures Valid() && IsUserConnected(userId) && userSessions[userId].open && fault == NoFault
              ==> |sent| == |old(sent)| + 1
    {
      raised := false;
      if userId in userSessions && userSessions[userId].open && userId in sessionLocks {
        if fault == NoFault {
          sent := sent + [Frame(userId, userSessions[userId].id, payload)];
        } else if fault == RuntimeFault {
          raised := true;
        }
      }
    }

    /**
     * `isUserConnected`: the user has a registered session, open or not;
     * while the registry is consistent, exactly when the user holds a lock.
     */
    function IsUserConnected(userId: int): (connected: bool)
      reads this`userSessions, this`sessionLocks
      ensures connected <==> userId in userSessions.Keys
      ensures Valid() ==> (connected <==> userId in sessionLocks)
      ensures connected ==> SessionCount() >= 1
    {
      userId in userSessions
    }

    function SessionCount(): nat
      reads this`userSessions
    {
      |userSessions|
    }

    /**
     * `getSessionCount`: the registry's size as a Java `int`
     * (`ConcurrentHashMap.size` caps at `Integer.MAX_VALUE`).
     */
    method GetSessionCount() returns (count: int)
      ensures IsInt(count) && 0 <= count
      ensures count == |userSessions| || (count == INT_MAX && |userSessions| > INT_MAX)
      ensures Valid() ==> count <= |sessionLocks|
    {
      count := if |userSessions| > INT_MAX then INT_MAX else |userSessions|;
    }
  }
}
