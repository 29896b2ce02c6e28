/**
 * The socket.io chat server: the handshake check, the connection handler
 * and its `message`, `typing`, `join_room`, `leave_room` and `disconnect`
 * events, and the emit helpers. Each handler runs as one atomic step and
 * returns who receives what it emits. The Redis presence set, the per-user
 * presence hash and the chat history are fields of the same object.
 */
module ChatServer {
  import opened Wrappers
  import opened Redis
  import opened Users

  type ConnId = string

  /** The payloads of the four message types the server emits. */
  datatype Payload =
    | ChatPayload(from: string, content: string, sentAt: int)
    | PresencePayload(userId: string, status: string)
    | TypingPayload(userId: string, isTyping: bool)
    | NoticePayload(message: string)

  /** A `WebSocketMessage`; `type` is carried by the payload's constructor. */
  datatype WsMessage = WsMessage(payload: Payload, userId: Option<string>, timestamp: int)

  /** The identity the handshake attaches to a socket. */
  datatype Conn = Conn(userId: string, email: string)

  /** The Redis hash `user:<id>`: the last socket id written, and `lastSeen`. */
  datatype PresenceRecord = PresenceRecord(socketId: Option<ConnId>, lastSeen: int)

  /** One emit: the event name, the message, and how many copies each connection receives. */
  datatype Delivery = Delivery(event: string, msg: WsMessage, to: multiset<ConnId>)

  const HistoryLength := 100
  const Online := "online"
  const Offline := "offline"

  function UserRoom(userId: string): string {
    "user:" + userId
  }

  // ------------------------------------------------------------ handshake

  /**
   * The handshake middleware: the token is `auth.token`, or else the
   * `token` query parameter; any verification failure is 'Invalid token'.
   */
  function Handshake(authToken: Option<string>, queryToken: Option<string>,
                     verify: string -> Verified): (r: Result<Claims>)
    ensures !Truthy(authToken) && !Truthy(queryToken) ==> r == Failure("Authentication required")
    ensures Truthy(authToken) ==>
      r == if verify(authToken.value).Decoded? then Success(verify(authToken.value).claims)
           else Failure("Invalid token")
    ensures !Truthy(authToken) && Truthy(queryToken) ==>
      r == if verify(queryToken.value).Decoded? then Success(verify(queryToken.value).claims)
           else Failure("Invalid token")
  {
    var token := if Truthy(authToken) then authToken else queryToken;
    if !Truthy(token) then Failure("Authentication required")
    else match verify(token.value)
      case Decoded(claims) => Success(claims)
      case _ => Failure("Invalid token")
  }

  // ------------------------------------------------------------ rooms

  /** The members of room `r`; a room nobody joined is empty. */
  function RoomOf(rooms: map<string, set<ConnId>>, r: string): set<ConnId> {
    if r in rooms then rooms[r] else {}
  }

  /** `socket.join(r)` */
  function Joined(rooms: map<string, set<ConnId>>, r: string, c: ConnId): (m: map<string, set<ConnId>>)
    ensures RoomOf(m, r) == RoomOf(rooms, r) + {c}
    ensures forall q :: q != r ==> RoomOf(m, q) == RoomOf(rooms, q)
  {
    rooms[r := RoomOf(rooms, r) + {c}]
  }

  /** `socket.leave(r)` */
  function Left(rooms: map<string, set<ConnId>>, r: string, c: ConnId): (m: map<string, set<ConnId>>)
    ensures RoomOf(m, r) == RoomOf(rooms, r) - {c}
    ensures forall q :: q != r ==> RoomOf(m, q) == RoomOf(rooms, q)
  {
    if r in rooms then rooms[r := rooms[r] - {c}] else rooms
  }

  /** What socket.io does to the rooms of a socket that disconnects: it leaves them all. */
  function LeftAll(rooms: map<string, set<ConnId>>, c: ConnId): (m: map<string, set<ConnId>>)
    ensures forall q :: RoomOf(m, q) == RoomOf(rooms, q) - {c}
  {
    map q | q in rooms :: rooms[q] - {c}
  }

  /** `io.to(r)`: every member of `r`, once. */
  function ToRoom(rooms: map<string, set<ConnId>>, r: string): (m: multiset<ConnId>)
    ensures forall c :: m[c] == if c in RoomOf(rooms, r) then 1 else 0
  {
    multiset(RoomOf(rooms, r))
  }

  /** `socket.to(r)` from `sender`: every member of `r` but the sender, once. */
  function ToOthers(rooms: map<string, set<ConnId>>, r: string, sender: ConnId): (m: multiset<ConnId>)
    ensures forall c :: m[c] == if c in RoomOf(rooms, r) && c != sender then 1 else 0
  {
    multiset(RoomOf(rooms, r) - {sender})
  }

  /** `io.emit`: every connection, once. */
  function ToAll(conns: set<ConnId>): (m: multiset<ConnId>)
    ensures forall c :: m[c] == if c in conns then 1 else 0
  {
    multiset(conns)
  }

  /**
   * The recipients of a chat message from `sender`: `to` wins over `room`.
   * A private message also goes back to the sender; a room message reaches
   * the sender only as a member of the room.
   */
  function ChatRecipients(rooms: map<string, set<ConnId>>, conns: set<ConnId>, sender: ConnId,
                          to: Option<string>, room: Option<string>): (m: multiset<ConnId>)
    ensures Truthy(to) ==> forall c :: m[c] ==
                             (if c in RoomOf(rooms, UserRoom(to.value)) then 1 else 0) + (if c == sender then 1 else 0)
    ensures !Truthy(to) && Truthy(room) ==> forall c :: m[c] == if c in RoomOf(rooms, room.value) then 1 else 0
    ensures !Truthy(to) && !Truthy(room) ==> forall c :: m[c] == if c in conns then 1 else 0
  {
    if Truthy(to) then ToRoom(rooms, UserRoom(to.value)) + multiset{sender}
    else if Truthy(room) then ToRoom(rooms, room.value)
    else ToAll(conns)
  }

  /** The recipients of a typing indicator: the user's room, or the room without the sender, or nobody. */
  function TypingRecipients(rooms: map<string, set<ConnId>>, sender: ConnId,
                            to: Option<string>, room: Option<string>): (m: Option<multiset<ConnId>>)
    ensures m.None? <==> !Truthy(to) && !Truthy(room)
    ensures Truthy(to) ==> m == Some(ToRoom(rooms, UserRoom(to.value)))
    ensures !Truthy(to) && Truthy(room) ==>
      (m.Some? && sender !in m.value
       && forall c :: c != sender ==> m.value[c] == if c in RoomOf(rooms, room.value) then 1 else 0)
  {
    if Truthy(to) then Some(ToRoom(rooms, UserRoom(to.value)))
    else if Truthy(room) then Some(ToOthers(rooms, room.value, sender))
    else None
  }

  // ------------------------------------------------------------ history

  /** `LPUSH chat:history m` then `LTRIM chat:history 0 99`: the newest 100 messages, newest first. */
  function RecordMessage(history: seq<WsMessage>, m: WsMessage): (h: seq<WsMessage>)
    ensures |h| == if |history| < HistoryLength then |history| + 1 else HistoryLength
    ensures h[0] == m
    ensures forall i :: 1 <= i < |h| ==> h[i] == history[i - 1]
  {
    LTrim(LPush(history, m), 0, HistoryLength - 1)
  }

  // ------------------------------------------------------------ presence

  /** How a presence broadcast changes the set of online users; a missing user id changes nothing. */
  function ApplyPresence(online: set<string>, m: WsMessage): (r: set<string>)
    ensures !m.payload.PresencePayload? || m.payload.userId == "" ==> r == online
    ensures m.payload.PresencePayload? && m.payload.userId != "" ==>
      (m.payload.userId in r <==> m.payload.status == Online)
      && r - {m.payload.userId} == online - {m.payload.userId}
  {
    match m.payload
    case PresencePayload(u, status) =>
      if u == "" then online else if status == Online then online + {u} else online - {u}
    case _ => online
  }

  function PresenceMessage(userId: string, status: string, now: int): WsMessage {
    WsMessage(PresencePayload(userId, status), None, now)
  }

  /**
   * Rooms hold only live connections; every user listed online has a live
   * connection and a presence record.
   */
  ghost predicate Consistent(conns: map<ConnId, Conn>, rooms: map<string, set<ConnId>>,
                             online: set<string>, records: map<string, PresenceRecord>) {
    (forall r :: RoomOf(rooms, r) <= conns.Keys)
    && "" !in online
    && online <= records.Keys
    && (forall u :: u in online ==> exists c :: c in conns && conns[c].userId == u)
  }

  lemma ConnectConsistent(conns: map<ConnId, Conn>, rooms: map<string, set<ConnId>>,
                          online: set<string>, records: map<string, PresenceRecord>,
                          sid: ConnId, claims: Claims, now: int)
    requires Consistent(conns, rooms, online, records) && sid !in conns
    ensures var uid := claims.userId;
      Consistent(conns[sid := Conn(uid, claims.email)],
                 Joined(Joined(rooms, sid, sid), UserRoom(uid), sid),
                 if uid == "" then online else online + {uid},
                 if uid == "" then records else records[uid := PresenceRecord(Some(sid), now)])
  {
    var uid := claims.userId;
    var conns' := conns[sid := Conn(uid, claims.email)];
    var online' := if uid == "" then online else online + {uid};
    var own := Joined(rooms, sid, sid);
    var both := Joined(own, UserRoom(uid), sid);
    forall r ensures RoomOf(both, r) <= conns'.Keys {
      assert RoomOf(own, r) <= conns'.Keys;
    }
    forall u | u in online' ensures exists c :: c in conns' && conns'[c].userId == u {
      if u != uid {
        var c :| c in conns && conns[c].userId == u;
        assert c in conns' && conns'[c].userId == u;
      } else {
        assert sid in conns' && conns'[sid].userId == u;
      }
    }
  }

  lemma DisconnectConsistent(conns: map<ConnId, Conn>, rooms: map<string, set<ConnId>>,
                             online: set<string>, records: map<string, PresenceRecord>,
                             sid: ConnId, now: int)
    requires Consistent(conns, rooms, online, records) && sid in conns
    ensures var uid := conns[sid].userId;
      Consistent(conns - {sid}, LeftAll(rooms, sid),
                 if uid == "" then online else online - {uid},
                 if uid == "" then records
                 else records[uid := PresenceRecord(if uid in records then records[uid].socketId else None, now)])
  {
    var uid := conns[sid].userId;
    var conns' := conns - {sid};
    var online' := if uid == "" then online else online - {uid};
    forall u | u in online' ensures exists c :: c in conns' && conns'[c].userId == u {
      var c :| c in conns && conns[c].userId == u;
      assert c != sid;
      assert c in conns' && conns'[c].userId == u;
    }
  }

  /** The chat server: the socket.io server state and the Redis keys the handlers write. */
  class Hub {
    /** Whether `initWebSocket` has run. */
    var initialized: bool
    var conns: map<ConnId, Conn>
    var rooms: map<string, set<ConnId>>
    /** The Redis set `online_users`. */
    var online: set<string>
    /** The Redis hashes `user:<id>`. */
    var records: map<string, PresenceRecord>
    /** The Redis list `chat:history`, newest first. */
    var history: seq<WsMessage>

    ghost predicate Valid()
      reads this
    {
      Consistent(conns, rooms, online, records)
      && |history| <= HistoryLength
      && (!initialized ==> conns == map[])
    }

    /** A server process before `initWebSocket`, over an empty Redis. */
    constructor ()
      ensures Valid() && !initialized
      ensures conns == map[] && rooms == map[] && online == {} && records == map[] && history == []
    {
      initialized := false;
      conns := map[];
      rooms := map[];
      online := {};
      records := map[];
      history := [];
    }

    /** `initWebSocket`, called once at start-up. */
    method Init()
      requires Valid() && !initialized
      modifies this
      ensures Valid() && initialized
      ensures conns == old(conns) && rooms == old(rooms) && online == old(online)
      ensures records == old(records) && history == old(history)
    {
      initialized := true;
    }

    /** `getIO`: the server, or the error thrown before initialisation. */
    method GetIO() returns (r: Result<bool>)
      ensures r.Success? <==> initialized
      ensures !initialized ==> r == Failure("Socket.io not initialized")
    {
      if !initialized {
        return Failure("Socket.io not initialized");
      }
      r := Success(true);
    }

    /** `emitToUser`: the members of the user's room; `None` where `io` is still undefined and the call throws. */
    method EmitToUser(userId: string, event: string, msg: WsMessage) returns (d: Option<Delivery>)
      ensures d.Some? <==> initialized
      ensures d.Some? ==> d.value == Delivery(event, msg, ToRoom(rooms, UserRoom(userId)))
    {
      if !initialized {
        return None;
      }
      d := Some(Delivery(event, msg, ToRoom(rooms, UserRoom(userId))));
    }

    /** `emitToAll`: every connection. */
    method EmitToAll(event: string, msg: WsMessage) returns (d: Option<Delivery>)
      ensures d.Some? <==> initialized
      ensures d.Some? ==> d.value == Delivery(event, msg, ToAll(conns.Keys))
    {
      if !initialized {
        return None;
      }
      d := Some(Delivery(event, msg, ToAll(conns.Keys)));
    }

    /**
     * The connection handler for an authenticated socket `sid`: mark the
     * user online, record the socket and the time, join the personal room,
     * and announce the user to every connection, the new one included.
     * socket.io also puts every socket in a room named by its own id.
     */
    method Connect(sid: ConnId, claims: Claims, now: int) returns (d: Delivery)
      requires Valid() && initialized && sid !in conns
      modifies this
      ensures Valid()
      ensures conns == old(conns)[sid := Conn(claims.userId, claims.email)]
      ensures rooms == Joined(Joined(old(rooms), sid, sid), UserRoom(claims.userId), sid)
      ensures claims.userId != "" ==>
        online == old(online) + {claims.userId}
        && records == old(records)[claims.userId := PresenceRecord(Some(sid), now)]
      ensures claims.userId == "" ==> online == old(online) && records == old(records)
      ensures history == old(history) && initialized
      ensures d == Delivery("presence", PresenceMessage(claims.userId, Online, now), ToAll(conns.Keys))
      ensures online == ApplyPresence(old(online), d.msg)
    {
      var uid := claims.userId;
      ConnectConsistent(conns, rooms, online, records, sid, claims, now);
      conns := conns[sid := Conn(uid, claims.email)];
      if uid != "" {
        online := online + {uid};
        records := records[uid := PresenceRecord(Some(sid), now)];
      }
      rooms := Joined(Joined(rooms, sid, sid), UserRoom(uid), sid);
      d := Delivery("presence", PresenceMessage(uid, Online, now), ToAll(conns.Keys));
    }

    /**
     * A socket `sid` arriving with the given tokens: the handshake, then the
     * connection handler. A refused socket changes nothing and gets the error.
     */
    method Attach(sid: ConnId, authToken: Option<string>, queryToken: Option<string>,
                  verify: string -> Verified, now: int) returns (r: Result<Delivery>)
      requires Valid() && initialized && sid !in conns
      modifies this
      ensures Valid() && initialized
      ensures var h := Handshake(authToken, queryToken, verify);
        if h.Failure? then
          r == Failure(h.error) && conns == old(conns) && rooms == old(rooms)
          && online == old(online) && records == old(records) && history == old(history)
        else
          var uid := h.value.userId;
          conns == old(conns)[sid := Conn(uid, h.value.email)]
          && rooms == Joined(Joined(old(rooms), sid, sid), UserRoom(uid), sid)
          && sid in RoomOf(rooms, UserRoom(uid))
          && (uid != "" ==> online == old(online) + {uid}
                            && records == old(records)[uid := PresenceRecord(Some(sid), now)])
          && (uid == "" ==> online == old(online) && records == old(records))
          && history == old(history)
          && r == Success(Delivery("presence", PresenceMessage(uid, Online, now), ToAll(conns.Keys)))
    {
      var h := Handshake(authToken, queryToken, verify);
      if h.Failure? {
        return Failure(h.error);
      }
      var d := Connect(sid, h.value, now);
      r := Success(d);
    }

    /**
     * A `message` event from `sid`: build the chat message, deliver it, and
     * push it onto the history, which keeps the newest 100.
     */
    method Message(sid: ConnId, to: Option<string>, content: string, room: Option<string>, now: int)
      returns (d: Delivery)
      requires Valid() && sid in conns
      modifies this
      ensures Valid()
      ensures var uid := old(conns)[sid].userId;
        d == Delivery("message", WsMessage(ChatPayload(uid, content, now), Some(uid), now),
                      ChatRecipients(old(rooms), old(conns).Keys, sid, to, room))
      ensures history == RecordMessage(old(history), d.msg)
      ensures conns == old(conns) && rooms == old(rooms) && online == old(online)
      ensures records == old(records) && initialized == old(initialized)
    {
      var uid := conns[sid].userId;
      var msg := WsMessage(ChatPayload(uid, content, now), Some(uid), now);
      d := Delivery("message", msg, ChatRecipients(rooms, conns.Keys, sid, to, room));
      history := RecordMessage(history, msg);
    }

    /** A `typing` event from `sid`: delivered, or dropped when neither `to` nor `room` is given. */
    method Typing(sid: ConnId, to: Option<string>, room: Option<string>, isTyping: bool, now: int)
      returns (d: Option<Delivery>)
      requires sid in conns
      ensures d.None? <==> !Truthy(to) && !Truthy(room)
      ensures d.Some? ==>
        (d.value.event == "typing"
         && d.value.msg == WsMessage(TypingPayload(conns[sid].userId, isTyping), Some(conns[sid].userId), now)
         && Some(d.value.to) == TypingRecipients(rooms, sid, to, room))
      ensures d.Some? && !Truthy(to) ==> sid !in d.value.to
    {
      var uid := conns[sid].userId;
      var recipients := TypingRecipients(rooms, sid, to, room);
      if recipients.None? {
        return None;
      }
      d := Some(Delivery("typing", WsMessage(TypingPayload(uid, isTyping), Some(uid), now), recipients.value));
    }

    /** A `join_room` event: `sid` joins, and the room's other members are told. */
    method JoinRoom(sid: ConnId, roomId: string, now: int) returns (d: Delivery)
      requires Valid() && sid in conns
      modifies this
      ensures Valid()
      ensures rooms == Joined(old(rooms), roomId, sid)
      ensures d.event == "notification"
        && d.msg == WsMessage(NoticePayload("User " + old(conns)[sid].userId + " joined the room"), None, now)
      ensures d.to == ToOthers(old(rooms), roomId, sid) && sid !in d.to
      ensures conns == old(conns) && online == old(online) && records == old(records)
      ensures history == old(history) && initialized == old(initialized)
    {
      rooms := Joined(rooms, roomId, sid);
      var text := "User " + conns[sid].userId + " joined the room";
      d := Delivery("notification", WsMessage(NoticePayload(text), None, now), ToOthers(rooms, roomId, sid));
    }

    /** A `leave_room` event: `sid` leaves, and the room's remaining members are told. */
    method LeaveRoom(sid: ConnId, roomId: string, now: int) returns (d: Delivery)
      requires Valid() && sid in conns
      modifies this
      ensures Valid()
      ensures rooms == Left(old(rooms), roomId, sid)
      ensures d.event == "notification"
        && d.msg == WsMessage(NoticePayload("User " + old(conns)[sid].userId + " left the room"), None, now)
      ensures d.to == ToOthers(old(rooms), roomId, sid) && sid !in d.to
      ensures conns == old(conns) && online == old(online) && records == old(records)
      ensures history == old(history) && initialized == old(initialized)
    {
      rooms := Left(rooms, roomId, sid);
      var text := "User " + conns[sid].userId + " left the room";
      d := Delivery("notification", WsMessage(NoticePayload(text), None, now), ToOthers(rooms, roomId, sid));
    }

    /**
     * The socket `sid` disconnects: socket.io drops it from every room, then
     * the handler removes its user from the online set (whatever other
     * connections that user still has), stamps `lastSeen` keeping the hash,
     * and announces the user offline to the remaining connections.
     */
    method Disconnect(sid: ConnId, now: int) returns (d: Delivery)
      requires Valid() && sid in conns
      modifies this
      ensures Valid()
      ensures var uid := old(conns)[sid].userId;
        conns == old(conns) - {sid}
        && rooms == LeftAll(old(rooms), sid)
        && (uid != "" ==>
              online == old(online) - {uid}
              && records == old(records)[uid := PresenceRecord(
                   if uid in old(records) then old(records)[uid].socketId else None, now)])
        && (uid == "" ==> online == old(online) && records == old(records))
        && d == Delivery("presence", PresenceMessage(uid, Offline, now), ToAll(conns.Keys))
      ensures online == ApplyPresence(old(online), d.msg)
      ensures history == old(history) && initialized == old(initialized)
    {
      var uid := conns[sid].userId;
      DisconnectConsistent(conns, rooms, online, records, sid, now);
      conns := conns - {sid};
      rooms := LeftAll(rooms, sid);
      if uid != "" {
        online := online - {uid};
        records := records[uid := PresenceRecord(if uid in records then records[uid].socketId else None, now)];
      }
      d := Delivery("presence", PresenceMessage(uid, Offline, now), ToAll(conns.Keys));
    }
  }

  /**
   * Two tabs of the same user; closing one marks the user offline although
   * the other is still connected.
   */
  method TwoTabsScenario(u: Claims, now: int) returns (stillConnected: bool, listedOnline: bool)
    requires u.userId != ""
    ensures stillConnected && !listedOnline
  {
    var hub := new Hub();
    hub.Init();
    var first := hub.Connect("tab-1", u, now);
    var second := hub.Connect("tab-2", u, now + 1);
    var gone := hub.Disconnect("tab-1", now + 2);
    stillConnected := "tab-2" in hub.conns && hub.conns["tab-2"].userId == u.userId;
    listedOnline := u.userId in hub.online;
  }

  /** Nothing stops a socket from joining another user's personal room and reading their private messages. */
  lemma PersonalRoomIsOpen(rooms: map<string, set<ConnId>>, conns: set<ConnId>, spy: ConnId,
                           sender: ConnId, victim: string)
    requires victim != "" && spy != sender
    ensures ChatRecipients(Joined(rooms, UserRoom(victim), spy), conns, sender, Some(victim), None)[spy] == 1
  {
  }

  /** The history is the newest messages, newest first: recording `ms` in turn gives them reversed, cut to 100. */
  function Newest(ms: seq<WsMessage>, history: seq<WsMessage>): seq<WsMessage>
    decreases |ms|
  {
    if ms == [] then history else RecordMessage(Newest(ms[..|ms| - 1], history), ms[|ms| - 1])
  }

  function Reverse(ms: seq<WsMessage>): (r: seq<WsMessage>)
    ensures |r| == |ms|
    ensures forall i :: 0 <= i < |ms| ==> r[i] == ms[|ms| - 1 - i]
    decreases |ms|
  {
    if ms == [] then [] else [ms[|ms| - 1]] + Reverse(ms[..|ms| - 1])
  }

  lemma {:induction false} NewestIsReversedPrefix(ms: seq<WsMessage>, history: seq<WsMessage>)
    ensures var all := Reverse(ms) + history;
      Newest(ms, history) == all[..if |all| < HistoryLength || |ms| == 0 then |all| else HistoryLength]
    decreases |ms|
  {
    if ms != [] {
      var init := ms[..|ms| - 1];
      NewestIsReversedPrefix(init, history);
      var all := Reverse(ms) + history;
      var prev := Reverse(init) + history;
      assert all == [ms[|ms| - 1]] + prev;
      var p := Newest(init, history);
      var h := RecordMessage(p, ms[|ms| - 1]);
      var n := if |all| < HistoryLength then |all| else HistoryLength;
      assert |h| == n;
      forall i | 0 <= i < n ensures h[i] == all[i] {
        if i > 0 {
          assert h[i] == p[i - 1];
        }
      }
    }
  }
}
