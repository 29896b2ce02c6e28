/**
 * The state of the chat page: the socket, the received messages, the
 * online-user list kept from presence broadcasts, the connection flag and
 * the message input. Rendering and scrolling are not modelled.
 */
module ChatClient {
  import opened Wrappers
  import opened Strings
  import opened Lists
  import opened ChatServer

  function Elements(s: seq<string>): set<string> {
    set x | x in s
  }

  /** The online-user list after one presence broadcast; one without a user id is ignored. */
  function OnPresenceList(users: seq<string>, m: WsMessage): (r: seq<string>)
    ensures NoDups(users) ==> NoDups(r)
    ensures Elements(r) == ApplyPresence(Elements(users), m)
  {
    match m.payload
    case PresencePayload(u, status) =>
      if u == "" then users
      else if status == Online then Dedup(users + [u])
      else
        var r := Filter(users, (x: string) => x != u);
        assert NoDups(users) ==> NoDups(r) by {
          if NoDups(users) {
            FilterIsSubseq(users, (x: string) => x != u);
            SubseqNoDups(r, users);
          }
        }
        r
    case _ => users
  }

  /** An online broadcast adds the user at the end only if absent, keeping the rest as it was. */
  lemma OnlineAppendsOnce(users: seq<string>, u: string, now: int)
    requires NoDups(users) && u != ""
    ensures OnPresenceList(users, PresenceMessage(u, Online, now)) == if u in users then users else users + [u]
  {
    AppendUnique(users, u);
  }

  /** Any other status removes every occurrence of the user and keeps the others in order. */
  lemma OfflineRemovesAll(users: seq<string>, u: string, status: string, now: int)
    requires u != "" && status != Online
    ensures var r := OnPresenceList(users, PresenceMessage(u, status, now));
      u !in r && Subseq(r, users) && forall x :: x in users && x != u ==> x in r
  {
    FilterIsSubseq(users, (x: string) => x != u);
  }

  /** The client list after a run of presence broadcasts. */
  function ReplayList(users: seq<string>, ms: seq<WsMessage>): seq<string>
    decreases |ms|
  {
    if ms == [] then users else ReplayList(OnPresenceList(users, ms[0]), ms[1..])
  }

  /** The server's online set after the same run of broadcasts. */
  function ReplaySet(online: set<string>, ms: seq<WsMessage>): set<string>
    decreases |ms|
  {
    if ms == [] then online else ReplaySet(ApplyPresence(online, ms[0]), ms[1..])
  }

  /**
   * A client that starts in step with the server's online set and receives
   * every presence broadcast stays in step with it, and its list never
   * holds a user twice.
   */
  lemma {:induction false} ReplayMirrorsServer(users: seq<string>, ms: seq<WsMessage>)
    requires NoDups(users)
    ensures NoDups(ReplayList(users, ms))
    ensures Elements(ReplayList(users, ms)) == ReplaySet(Elements(users), ms)
    decreases |ms|
  {
    if ms != [] {
      ReplayMirrorsServer(OnPresenceList(users, ms[0]), ms[1..]);
    }
  }

  class ChatView {
    /** Whether the page created its socket (`socket !== null`). */
    var socketOpen: bool
    var messages: seq<WsMessage>
    var inputMessage: string
    var onlineUsers: seq<string>
    var isConnected: bool
    /** The `message` events the page emitted, by content. */
    var emitted: seq<string>

    constructor ()
      ensures !socketOpen && messages == [] && inputMessage == "" && onlineUsers == []
      ensures !isConnected && emitted == []
    {
      socketOpen := false;
      messages := [];
      inputMessage := "";
      onlineUsers := [];
      isConnected := false;
      emitted := [];
    }

    /** The effect on mount: a socket is opened only with a token. */
    method Mount(token: Option<string>)
      modifies this
      ensures socketOpen == (old(socketOpen) || Truthy(token))
      ensures messages == old(messages) && onlineUsers == old(onlineUsers)
      ensures isConnected == old(isConnected) && inputMessage == old(inputMessage) && emitted == old(emitted)
    {
      if Truthy(token) {
        socketOpen := true;
      }
    }

    method OnConnect()
      modifies this
      ensures isConnected
      ensures socketOpen == old(socketOpen) && messages == old(messages) && onlineUsers == old(onlineUsers)
      ensures inputMessage == old(inputMessage) && emitted == old(emitted)
    {
      isConnected := true;
    }

    method OnDisconnect()
      modifies this
      ensures !isConnected
      ensures socketOpen == old(socketOpen) && messages == old(messages) && onlineUsers == old(onlineUsers)
      ensures inputMessage == old(inputMessage) && emitted == old(emitted)
    {
      isConnected := false;
    }

    /** A `message` event: appended after every earlier message. */
    method OnMessage(m: WsMessage)
      modifies this
      ensures messages == old(messages) + [m]
      ensures socketOpen == old(socketOpen) && onlineUsers == old(onlineUsers) && isConnected == old(isConnected)
      ensures inputMessage == old(inputMessage) && emitted == old(emitted)
    {
      messages := messages + [m];
    }

    /** A `presence` event. */
    method OnPresence(m: WsMessage)
      modifies this
      ensures onlineUsers == OnPresenceList(old(onlineUsers), m)
      ensures NoDups(old(onlineUsers)) ==> NoDups(onlineUsers)
      ensures socketOpen == old(socketOpen) && messages == old(messages) && isConnected == old(isConnected)
      ensures inputMessage == old(inputMessage) && emitted == old(emitted)
    {
      onlineUsers := OnPresenceList(onlineUsers, m);
    }

    /** `sendMessage`: with a socket and a non-blank input, emit `{ content: input }` and clear the input. */
    method SendMessage()
      modifies this
      ensures !socketOpen || Blank(old(inputMessage)) ==>
        emitted == old(emitted) && inputMessage == old(inputMessage)
      ensures socketOpen && !Blank(old(inputMessage)) ==>
        emitted == old(emitted) + [old(inputMessage)] && inputMessage == ""
      ensures socketOpen == old(socketOpen) && messages == old(messages)
      ensures onlineUsers == old(onlineUsers) && isConnected == old(isConnected)
    {
      TrimEmptyIffBlank(inputMessage);
      if !socketOpen || Trim(inputMessage) == "" {
        return;
      }
      emitted := emitted + [inputMessage];
      inputMessage := "";
    }
  }
}
