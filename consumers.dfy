/** The realtime side of the chat (chat/consumers.py): the connection gate of
    the room-chat and direct-chat consumers, their message pipeline over the
    channel layer, and the direct-room identity. */
module Consumers {
  import opened Base
  import opened Text
  import opened ChatModels
  import opened ChannelLayer

  /** The user a token resolves to; users are identified by username. */
  datatype User = User(username: string, authenticated: bool)

  /** The handshake headers, after `dict(self.scope['headers'])`. */
  type Headers = map<string, string>

  /** The JWT check (`UntypedToken` then `get_user`) as an oracle: the tokens
      that validate, and the user each resolves to. */
  type TokenOracle = map<string, User>

  /** Every refusal and error close uses this code. */
  const CloseCode: int := 4003

  datatype CloseReason =
    | NoToken
    | InvalidToken
    | NotMember
    | NotAuthenticated
    | NoSuchUser
    | SelfConnect
    | ProcessingError

  /** The reason string sent with each close. */
  function ReasonText(reason: CloseReason): string {
    match reason
    case NoToken => "No token provided."
    case InvalidToken => "Invalid token."
    case NotMember => "User is not a member of this room."
    case NotAuthenticated => "User not authenticated."
    case NoSuchUser => "Other user does not exist."
    case SelfConnect => "Cannot connect to yourself."
    case ProcessingError => "Error processing message."
  }

  /** The lifecycle of one websocket connection. */
  datatype Status = Connecting | Accepted | Closed(code: int, reason: string)

  /** The `chat_message` event sent through a group. Room chat includes the
      message type; direct chat leaves it out. */
  datatype ChatEvent = ChatEvent(user: string, message: string, messageType: Option<string>, timestamp: nat)

  /** One entry of the direct-chat history list. */
  datatype HistoryEntry = HistoryEntry(user: string, message: Option<string>, timestamp: nat, messageType: string)

  /** An inbound text frame after `json.loads`: not JSON at all, JSON that is
      not an object, or an object with its optional string fields. */
  datatype Payload =
    | Malformed
    | NotAnObject
    | Object(message: Option<string>, messageType: Option<string>)

  /** What a `receive` call did. */
  datatype Handled = Ignored | Broadcast(message: Message) | Raised | ClosedOnError

  // ---------------------------------------------------------------------
  // Pure parts

  /** `extract_token` (and the same code inline in the room-chat `connect`):
      the second space-separated field of the `authorization` header when the
      header starts with `"Bearer "`. That field is the run of characters
      after `"Bearer "` up to the next space or the end. */
  function ExtractToken(headers: Headers): (token: Option<string>)
    ensures token.Some? <==> "authorization" in headers && StartsWith(headers["authorization"], "Bearer ")
    ensures token.Some? ==>
      var header := headers["authorization"];
      && ' ' !in token.value
      && StartsWith(header, "Bearer " + token.value)
      && (|header| == 7 + |token.value| || header[7 + |token.value|] == ' ')
  {
    if "authorization" in headers && StartsWith(headers["authorization"], "Bearer ") then
      var header := headers["authorization"];
      assert header == "Bearer" + [' '] + header[7..];
      SplitAfterPrefix("Bearer", ' ', header[7..]);
      SplitFirstField(header[7..], ' ');
      var field := Split(header, ' ')[1];
      assert field == Split(header[7..], ' ')[0];
      assert header[..7 + |field|] == "Bearer " + field;
      Some(field)
    else None
  }

  /** The first two gate steps shared by both consumers: a non-empty bearer
      token that the oracle accepts. */
  function Authenticate(headers: Headers, tokens: TokenOracle): (r: Result<User, CloseReason>)
    ensures r.Success? <==> var t := ExtractToken(headers); t.Some? && t.value != "" && t.value in tokens
    ensures r.Success? ==> r.value == tokens[ExtractToken(headers).value]
    ensures r == Failure(NoToken) <==> var t := ExtractToken(headers); t.None? || t.value == ""
    ensures r == Failure(InvalidToken) <==> var t := ExtractToken(headers); t.Some? && t.value != "" && t.value !in tokens
  {
    var token := ExtractToken(headers);
    if token.None? || token.value == "" then Failure(NoToken)
    else if token.value !in tokens then Failure(InvalidToken)
    else Success(tokens[token.value])
  }

  /** A header that is not a bearer header, or whose token field is empty,
      is refused for the missing token before the oracle is consulted. */
  lemma NoBearerMeansNoToken(headers: Headers, tokens: TokenOracle)
    requires "authorization" !in headers || !StartsWith(headers["authorization"], "Bearer ")
      || headers["authorization"] == "Bearer " || StartsWith(headers["authorization"], "Bearer  ")
    ensures Authenticate(headers, tokens) == Failure(NoToken)
  {
    var token := ExtractToken(headers);
    if token.Some? {
      var header := headers["authorization"];
      if header != "Bearer " {
        assert header[7] == ' ';
      }
      assert token.value == "";
    }
  }

  /** `create_room_link`: `link_` followed by the two usernames in Python
      string order, joined by `_`. */
  function CreateRoomLink(username1: string, username2: string): (link: string)
    ensures StartsWith(link, "link_")
    ensures link == "link_" + username1 + "_" + username2 || link == "link_" + username2 + "_" + username1
  {
    var ordered := if Less(username2, username1) then [username2, username1] else [username1, username2];
    assert Join(ordered, "_") == ordered[0] + "_" + ordered[1];
    var link := "link_" + Join(ordered, "_");
    assert link[..5] == "link_";
    link
  }

  /** The direct room of two users does not depend on who connects. */
  lemma CreateRoomLinkSymmetric(username1: string, username2: string)
    ensures CreateRoomLink(username1, username2) == CreateRoomLink(username2, username1)
  {
    LessAsymmetric(username1, username2);
    LessTotal(username1, username2);
  }

  /** The link lists the smaller username first. */
  lemma CreateRoomLinkOrdered(username1: string, username2: string)
    requires Less(username1, username2)
    ensures CreateRoomLink(username1, username2) == "link_" + username1 + "_" + username2
    ensures CreateRoomLink(username2, username1) == "link_" + username1 + "_" + username2
  {
    LessAsymmetric(username1, username2);
    assert Join([username1, username2], "_") == username1 + "_" + username2;
  }

  /** The link is not injective once usernames contain `_`: two different
      pairs of users share a room. */
  lemma CreateRoomLinkCollides()
    ensures CreateRoomLink("a_b", "c") == CreateRoomLink("a", "b_c")
  {
    assert Less("a_b", "c") && Less("a", "b_c");
    CreateRoomLinkOrdered("a_b", "c");
    CreateRoomLinkOrdered("a", "b_c");
    assert "link_" + "a_b" + "_" + "c" == "link_" + "a" + "_" + "b_c";
  }

  /** The group a room-chat connection joins. */
  function GroupName(roomLink: string): string {
    "chat_" + roomLink
  }

  /** `ChatRoomConsumer.is_member`: the room exists and the user holds a
      membership in it, whatever the room type. */
  function IsMember(rooms: seq<Room>, memberships: seq<Membership>, user: User, roomLink: string): (member: bool)
    ensures member <==> roomLink in Links(rooms) && HasMembership(memberships, user.username, roomLink)
  {
    match FindRoom(rooms, roomLink)
    case None => false
    case Some(room) => HasMembership(memberships, user.username, room.link)
  }

  datatype RoomGate = RoomRefused(reason: CloseReason) | RoomAdmitted(user: User)

  /** The checks of the room-chat `connect`, in order: token present, token
      valid, membership. */
  function RoomChatGate(headers: Headers, tokens: TokenOracle, rooms: seq<Room>, memberships: seq<Membership>,
                        roomLink: string): (d: RoomGate)
    ensures Authenticate(headers, tokens).Failure? ==> d == RoomRefused(Authenticate(headers, tokens).error)
    ensures Authenticate(headers, tokens).Success? && !IsMember(rooms, memberships, Authenticate(headers, tokens).value, roomLink)
      ==> d == RoomRefused(NotMember)
    ensures d.RoomRefused? ==> d.reason in {NoToken, InvalidToken, NotMember}
  {
    match Authenticate(headers, tokens)
    case Failure(reason) => RoomRefused(reason)
    case Success(user) =>
      if IsMember(rooms, memberships, user, roomLink) then RoomAdmitted(user) else RoomRefused(NotMember)
  }

  /** A room-chat connection is admitted iff its token is present and valid
      and its user is a member of an existing room with that link. */
  lemma RoomChatGateAdmits(headers: Headers, tokens: TokenOracle, rooms: seq<Room>, memberships: seq<Membership>,
                           roomLink: string, user: User)
    ensures RoomChatGate(headers, tokens, rooms, memberships, roomLink) == RoomAdmitted(user) <==>
      && Authenticate(headers, tokens) == Success(user)
      && roomLink in Links(rooms)
      && HasMembership(memberships, user.username, roomLink)
  {
  }

  /** There is no bypass for PUBLIC rooms: an authenticated non-member is refused. */
  lemma PublicRoomNeedsMembership(headers: Headers, tokens: TokenOracle, rooms: seq<Room>, memberships: seq<Membership>,
                                  room: Room)
    requires room in rooms && room.roomType == Public
    requires Authenticate(headers, tokens).Success?
    requires !HasMembership(memberships, Authenticate(headers, tokens).value.username, room.link)
    ensures RoomChatGate(headers, tokens, rooms, memberships, room.link) == RoomRefused(NotMember)
  {
  }

  datatype DirectGate = DirectRefused(reason: CloseReason) | DirectAdmitted(user: User, roomLink: string)

  /** The checks of the direct-chat `connect`, in order: token present, token
      valid, user authenticated, other user exists, not oneself. */
  function DirectChatGate(headers: Headers, tokens: TokenOracle, accounts: set<string>, otherUsername: string): (d: DirectGate)
    ensures d.DirectAdmitted? <==>
      var auth := Authenticate(headers, tokens);
      auth.Success? && auth.value.authenticated && otherUsername in accounts && auth.value.username != otherUsername
    ensures d.DirectAdmitted? ==>
      && Authenticate(headers, tokens) == Success(d.user)
      && d.user.authenticated
      && otherUsername in accounts
      && d.user.username != otherUsername
      && d.roomLink == CreateRoomLink(d.user.username, otherUsername)
  {
    match Authenticate(headers, tokens)
    case Failure(reason) => DirectRefused(reason)
    case Success(user) =>
      if !user.authenticated then DirectRefused(NotAuthenticated)
      else if otherUsername !in accounts then DirectRefused(NoSuchUser)
      else if user.username == otherUsername then DirectRefused(SelfConnect)
      else DirectAdmitted(user, CreateRoomLink(user.username, otherUsername))
  }

  /** Each refusal of the direct gate names the first check that failed. */
  lemma DirectChatGateOrder(headers: Headers, tokens: TokenOracle, accounts: set<string>, otherUsername: string)
    ensures var d := DirectChatGate(headers, tokens, accounts, otherUsername);
      var auth := Authenticate(headers, tokens);
      var token := ExtractToken(headers);
      && (token.None? || token.value == "" ==> d == DirectRefused(NoToken))
      && (token.Some? && token.value != "" && token.value !in tokens ==> d == DirectRefused(InvalidToken))
      && (auth.Failure? ==> d == DirectRefused(auth.error))
      && (auth.Success? && !auth.value.authenticated ==> d == DirectRefused(NotAuthenticated))
      && (auth.Success? && auth.value.authenticated && otherUsername !in accounts ==> d == DirectRefused(NoSuchUser))
      && ((auth.Success? && auth.value.authenticated && otherUsername in accounts && auth.value.username == otherUsername)
            ==> d == DirectRefused(SelfConnect))
  {
  }

  /** When two users connect to each other, both land in the same room. */
  lemma DirectRoomShared(headersA: Headers, headersB: Headers, tokens: TokenOracle, accounts: set<string>,
                         userA: User, userB: User)
    requires DirectChatGate(headersA, tokens, accounts, userB.username).DirectAdmitted?
    requires DirectChatGate(headersA, tokens, accounts, userB.username).user == userA
    requires DirectChatGate(headersB, tokens, accounts, userA.username).DirectAdmitted?
    requires DirectChatGate(headersB, tokens, accounts, userA.username).user == userB
    ensures DirectChatGate(headersA, tokens, accounts, userB.username).roomLink
         == DirectChatGate(headersB, tokens, accounts, userA.username).roomLink
  {
    CreateRoomLinkSymmetric(userA.username, userB.username);
  }

  datatype RoomAction = RoomIgnore | RoomRaise | RoomPersist(content: string, messageType: string)

  /** What the room-chat `receive` does with a frame: `json.loads` or `.get`
      raise on a frame that is not a JSON object (nothing catches it), a
      missing or empty `message` is ignored, and otherwise the content is
      saved with `message_type` defaulting to `"TEXT"`. */
  function RoomReceiveAction(payload: Payload): (a: RoomAction)
    ensures a.RoomRaise? <==> !payload.Object?
    ensures a.RoomPersist? <==> payload.Object? && Truthy(payload.message)
    ensures a.RoomPersist? ==> a.content == payload.message.value && a.messageType == payload.messageType.GetOr("TEXT")
  {
    match payload
    case Malformed => RoomRaise
    case NotAnObject => RoomRaise
    case Object(message, messageType) =>
      if Truthy(message) then RoomPersist(message.value, messageType.GetOr("TEXT")) else RoomIgnore
  }

  datatype DirectAction = DirectIgnore | DirectClose | DirectPersist(content: string)

  /** What the direct-chat `receive` does with a frame: any exception closes
      the connection, a missing or empty `message` is ignored, and otherwise
      the content is saved. */
  function DirectReceiveAction(payload: Payload): (a: DirectAction)
    ensures a.DirectClose? <==> !payload.Object?
    ensures a.DirectPersist? <==> payload.Object? && Truthy(payload.message)
    ensures a.DirectPersist? ==> a.content == payload.message.value
  {
    match payload
    case Malformed => DirectClose
    case NotAnObject => DirectClose
    case Object(message, _) => if Truthy(message) then DirectPersist(message.value) else DirectIgnore
  }

  /** A well-formed object without `message` is ignored by direct chat, not closed. */
  lemma DirectIgnoresObjectWithoutMessage(messageType: Option<string>)
    ensures DirectReceiveAction(Object(None, messageType)) == DirectIgnore
    ensures DirectReceiveAction(Object(Some(""), messageType)) == DirectIgnore
  {
  }

  /** The room state after `ensure_room_exists`: the room is created (named
      after its link, type DIRECT) unless a room with that link exists, and
      each of the two users gets a MEMBER membership unless already a member. */
  function EnsureDirectRoomState(rooms: seq<Room>, memberships: seq<Membership>, roomLink: string,
                                 username1: string, username2: string): (r: (seq<Room>, seq<Membership>))
    ensures rooms <= r.0 && memberships <= r.1
    ensures roomLink in Links(rooms) ==> r.0 == rooms
    ensures roomLink !in Links(rooms) ==> r.0 == rooms + [Room(roomLink, None, Direct, roomLink)]
    ensures forall i :: |memberships| <= i < |r.1| ==> r.1[i].roomLink == roomLink && r.1[i].role == Member
    ensures forall i :: |memberships| <= i < |r.1| ==> r.1[i].user == username1 || r.1[i].user == username2
    ensures |r.1| <= |memberships| + 2
    ensures HasMembership(memberships, username1, roomLink) && HasMembership(memberships, username2, roomLink) ==> r.1 == memberships
  {
    var rooms' := if roomLink in Links(rooms) then rooms else rooms + [Room(roomLink, None, Direct, roomLink)];
    var ms1 := if HasMembership(memberships, username1, roomLink) then memberships
               else memberships + [Membership(username1, roomLink, Member)];
    var ms2 := if HasMembership(ms1, username2, roomLink) then ms1
               else ms1 + [Membership(username2, roomLink, Member)];
    (rooms', ms2)
  }

  /** After `ensure_room_exists` there is exactly one room with the link and
      each of the two users holds exactly one membership in it; the table
      constraints still hold. */
  lemma {:induction false} EnsureDirectRoomExactlyOnce(rooms: seq<Room>, memberships: seq<Membership>, roomLink: string,
                                                      username1: string, username2: string)
    requires LinksUnique(rooms) && MembershipsUnique(memberships)
    ensures var r := EnsureDirectRoomState(rooms, memberships, roomLink, username1, username2);
      && LinksUnique(r.0) && MembershipsUnique(r.1)
      && RoomCount(r.0, roomLink) == 1
      && MembershipCount(r.1, username1, roomLink) == 1
      && MembershipCount(r.1, username2, roomLink) == 1
  {
    var r := EnsureDirectRoomState(rooms, memberships, roomLink, username1, username2);
    if roomLink !in Links(rooms) {
      AppendRoomUnique(rooms, Room(roomLink, None, Direct, roomLink));
      LinksAppend(rooms, Room(roomLink, None, Direct, roomLink));
    }
    assert roomLink in Links(r.0);
    RoomCountOne(r.0, roomLink);
    var ms1 := if HasMembership(memberships, username1, roomLink) then memberships
               else memberships + [Membership(username1, roomLink, Member)];
    if !HasMembership(memberships, username1, roomLink) {
      AppendMembershipUnique(memberships, Membership(username1, roomLink, Member));
      assert ms1[|memberships|] == Membership(username1, roomLink, Member);
    }
    assert HasMembership(ms1, username1, roomLink);
    if !HasMembership(ms1, username2, roomLink) {
      AppendMembershipUnique(ms1, Membership(username2, roomLink, Member));
      assert r.1[|ms1|] == Membership(username2, roomLink, Member);
    }
    assert r.1 == if HasMembership(ms1, username2, roomLink) then ms1 else ms1 + [Membership(username2, roomLink, Member)];
    assert HasMembership(r.1, username2, roomLink);
    var k :| 0 <= k < |ms1| && ms1[k].user == username1 && ms1[k].roomLink == roomLink;
    assert r.1[k] == ms1[k];
    MembershipCountOne(r.1, username1, roomLink);
    MembershipCountOne(r.1, username2, roomLink);
  }

  /** `ensure_room_exists` is idempotent: running it again changes nothing. */
  lemma {:induction false} EnsureDirectRoomIdempotent(rooms: seq<Room>, memberships: seq<Membership>, roomLink: string,
                                                     username1: string, username2: string)
    ensures var r := EnsureDirectRoomState(rooms, memberships, roomLink, username1, username2);
      EnsureDirectRoomState(r.0, r.1, roomLink, username1, username2) == r
  {
    var r := EnsureDirectRoomState(rooms, memberships, roomLink, username1, username2);
    var room := Room(roomLink, None, Direct, roomLink);
    if roomLink !in Links(rooms) {
      LinksAppend(rooms, room);
    }
    assert roomLink in Links(r.0);
    var ms1 := if HasMembership(memberships, username1, roomLink) then memberships
               else memberships + [Membership(username1, roomLink, Member)];
    if !HasMembership(memberships, username1, roomLink) {
      assert ms1[|memberships|] == Membership(username1, roomLink, Member);
    }
    var k :| 0 <= k < |ms1| && ms1[k].user == username1 && ms1[k].roomLink == roomLink;
    if !HasMembership(ms1, username2, roomLink) {
      assert r.1[|ms1|] == Membership(username2, roomLink, Member);
    }
    assert r.1[k] == ms1[k];
    assert HasMembership(r.1, username1, roomLink);
    assert HasMembership(r.1, username2, roomLink);
  }

  /** `fetch_previous_messages`: the messages of the room ordered by
      timestamp; no room, no messages. */
  function FetchPreviousMessages(rooms: seq<Room>, messages: seq<Message>, roomLink: string): (r: seq<Message>)
    ensures roomLink !in Links(rooms) ==> r == []
  {
    match FindRoom(rooms, roomLink)
    case None => []
    case Some(room) => OrderByTimestamp(RoomMessages(messages, room.link))
  }

  /** The history of a room is in ascending timestamp order and holds each
      stored message of the room as often as it is stored, and nothing else. */
  lemma FetchPreviousMessagesSpec(rooms: seq<Room>, messages: seq<Message>, roomLink: string)
    ensures var r := FetchPreviousMessages(rooms, messages, roomLink);
      && SortedByTimestamp(r)
      && (roomLink in Links(rooms) ==>
            forall m :: multiset(r)[m] == if m.roomLink == roomLink then multiset(messages)[m] else 0)
  {
    var r := FetchPreviousMessages(rooms, messages, roomLink);
    if roomLink in Links(rooms) {
      assert FindRoom(rooms, roomLink).value.link == roomLink;
      assert r == OrderByTimestamp(RoomMessages(messages, roomLink));
    }
  }

  function HistoryEntryOf(m: Message): HistoryEntry {
    HistoryEntry(m.author, m.content, m.timestamp, m.messageType)
  }

  /** The list `send_previous_messages` builds, kept only when non-empty. */
  function HistoryPayload(messages: seq<Message>): (r: Option<seq<HistoryEntry>>)
    ensures r.None? <==> messages == []
    ensures r.Some? ==> |r.value| == |messages| && forall i :: 0 <= i < |messages| ==> r.value[i] == HistoryEntryOf(messages[i])
  {
    if messages == [] then None
    else Some(seq(|messages|, i requires 0 <= i < |messages| => HistoryEntryOf(messages[i])))
  }

  /** The history of a direct room lists its messages oldest first, one entry
      per message; a room without messages, or no room, sends nothing. */
  lemma HistoryOrdered(rooms: seq<Room>, messages: seq<Message>, roomLink: string)
    ensures var history := FetchPreviousMessages(rooms, messages, roomLink);
      var p := HistoryPayload(history);
      && (roomLink !in Links(rooms) ==> p.None?)
      && (p.Some? ==> |p.value| == |RoomMessages(messages, roomLink)|)
      && (p.Some? ==> forall i, j :: 0 <= i < j < |p.value| ==> p.value[i].timestamp <= p.value[j].timestamp)
  {
    var history := FetchPreviousMessages(rooms, messages, roomLink);
    FetchPreviousMessagesSpec(rooms, messages, roomLink);
    if roomLink in Links(rooms) {
      assert history == OrderByTimestamp(RoomMessages(messages, roomLink));
      assert |multiset(history)| == |multiset(RoomMessages(messages, roomLink))|;
    }
  }

  /** The loop of `send_previous_messages`: one entry per message, in order,
      and nothing to send when the list is empty. */
  method BuildPreviousMessages(messages: seq<Message>) returns (replay: Option<seq<HistoryEntry>>)
    ensures replay == HistoryPayload(messages)
  {
    var list: seq<HistoryEntry> := [];
    var i := 0;
    while i < |messages|
      invariant 0 <= i <= |messages|
      invariant |list| == i
      invariant forall k :: 0 <= k < i ==> list[k] == HistoryEntryOf(messages[k])
    {
      list := list + [HistoryEntryOf(messages[i])];
      i := i + 1;
    }
    assert list == seq(|messages|, i requires 0 <= i < |messages| => HistoryEntryOf(messages[i]));
    if list != [] {
      replay := Some(list);
    } else {
      replay := None;
    }
  }

  /** `send_previous_messages`, up to the send: fetch the room history and
      build its list, which is only sent when non-empty. */
  method SendPreviousMessages(rooms: seq<Room>, messages: seq<Message>, roomLink: string)
    returns (replay: Option<seq<HistoryEntry>>)
    ensures replay == HistoryPayload(FetchPreviousMessages(rooms, messages, roomLink))
  {
    var history := FetchPreviousMessages(rooms, messages, roomLink);
    replay := BuildPreviousMessages(history);
  }

  // ---------------------------------------------------------------------
  // The consumers

  /** `ChatRoomConsumer`: one websocket connection to a named room. */
  class RoomChatConsumer {
    const channelName: string
    var roomLink: string
    var roomGroupName: string
    var user: Option<User>
    var status: Status
    /** Frames sent to the websocket by `chat_message`. */
    var sent: seq<ChatEvent>

    constructor (channelName: string)
      ensures this.channelName == channelName
      ensures status == Connecting && user == None && sent == []
    {
      this.channelName := channelName;
      roomLink, roomGroupName := "", "";
      user, status, sent := None, Connecting, [];
    }

    method Connect(link: string, headers: Headers, tokens: TokenOracle, db: Database, layer: Layer<ChatEvent>)
      requires status == Connecting && layer.Valid()
      modifies this, layer
      ensures layer.Valid() && layer.inboxes == old(layer.inboxes)
      ensures roomLink == link && roomGroupName == GroupName(link) && sent == old(sent)
      ensures match RoomChatGate(headers, tokens, db.rooms, db.memberships, link)
        case RoomAdmitted(u) =>
          && status == Accepted && user == Some(u)
          && layer.groups == AddToGroup(old(layer.groups), GroupName(link), channelName)
        case RoomRefused(reason) =>
          && status == Closed(CloseCode, ReasonText(reason))
          && layer.groups == old(layer.groups)
    {
      roomLink := link;
      roomGroupName := GroupName(link);
      var token := ExtractToken(headers);
      if token.None? || token.value == "" {
        status := Closed(CloseCode, ReasonText(NoToken));
        return;
      }
      if token.value !in tokens {
        status := Closed(CloseCode, ReasonText(InvalidToken));
        return;
      }
      user := Some(tokens[token.value]);
      var member := IsMember(db.rooms, db.memberships, user.value, roomLink);
      if !member {
        status := Closed(CloseCode, ReasonText(NotMember));
        return;
      }
      layer.GroupAdd(roomGroupName, channelName);
      status := Accepted;
    }

    method Disconnect(layer: Layer<ChatEvent>)
      requires status != Connecting && layer.Valid()
      modifies layer
      ensures layer.Valid() && layer.inboxes == old(layer.inboxes)
      ensures layer.groups == DiscardFromGroup(old(layer.groups), roomGroupName, channelName)
    {
      layer.GroupDiscard(roomGroupName, channelName);
    }

    /** `save_message`: `None` when the room lookup raises. */
    method SaveMessage(db: Database, author: User, link: string, content: string, messageType: string)
      returns (saved: Option<Message>)
      requires db.Valid()
      modifies db
      ensures db.Valid()
      ensures link !in Links(old(db.rooms)) ==> saved.None? && unchanged(db)
      ensures link in Links(old(db.rooms)) ==>
        && saved == Some(Message(old(db.clock), author.username, link, Some(content), messageType, None, None, old(db.clock)))
        && db.messages == old(db.messages) + [saved.value] && db.clock == old(db.clock) + 1
        && db.rooms == old(db.rooms) && db.memberships == old(db.memberships)
    {
      var room := FindRoom(db.rooms, link);
      if room.None? {
        return None;
      }
      var m := db.CreateMessage(author.username, room.value.link, Some(content), messageType, None, None);
      saved := Some(m);
    }

    method Receive(payload: Payload, db: Database, layer: Layer<ChatEvent>) returns (outcome: Handled)
      requires status == Accepted && user.Some? && db.Valid() && layer.Valid()
      modifies db, layer
      ensures db.Valid() && layer.Valid() && layer.groups == old(layer.groups)
      ensures match RoomReceiveAction(payload)
        case RoomIgnore => outcome == Ignored && unchanged(db) && layer.inboxes == old(layer.inboxes)
        case RoomRaise => outcome == Raised && unchanged(db) && layer.inboxes == old(layer.inboxes)
        case RoomPersist(content, kind) =>
          if roomLink !in Links(old(db.rooms)) then
            outcome == Raised && unchanged(db) && layer.inboxes == old(layer.inboxes)
          else
            var m := Message(old(db.clock), user.value.username, roomLink, Some(content), kind, None, None, old(db.clock));
            && outcome == Broadcast(m)
            && db.messages == old(db.messages) + [m] && db.clock == old(db.clock) + 1
            && db.rooms == old(db.rooms) && db.memberships == old(db.memberships)
            && layer.inboxes == Deliver(old(layer.inboxes), Subscribers(old(layer.groups), roomGroupName),
                                        ChatEvent(user.value.username, content, Some(kind), m.timestamp))
    {
      var action := RoomReceiveAction(payload);
      match action {
        case RoomRaise =>
          return Raised;
        case RoomIgnore =>
          return Ignored;
        case RoomPersist(content, kind) =>
          var saved := SaveMessage(db, user.value, roomLink, content, kind);
          if saved.None? {
            return Raised;
          }
          var event := ChatEvent(user.value.username, content, Some(kind), saved.value.timestamp);
          layer.GroupSend(roomGroupName, event);
          outcome := Broadcast(saved.value);
      }
    }

    /** `chat_message`: forward a group event to the websocket. */
    method ChatMessage(event: ChatEvent)
      modifies this
      ensures sent == old(sent) + [event]
      ensures status == old(status) && user == old(user) && roomLink == old(roomLink) && roomGroupName == old(roomGroupName)
    {
      sent := sent + [event];
    }
  }

  /** `DirectChatConsumer`: one websocket connection to the direct room of the
      connecting user and another user. */
  class DirectChatConsumer {
    const channelName: string
    var otherUsername: string
    var user: Option<User>
    var otherUser: Option<string>
    var roomLink: Option<string>
    var status: Status
    /** The history list built on connect (never delivered as written, see README). */
    var replay: Option<seq<HistoryEntry>>
    /** Frames sent to the websocket by `chat_message`. */
    var sent: seq<ChatEvent>

    constructor (channelName: string)
      ensures this.channelName == channelName
      ensures status == Connecting && user == None && otherUser == None && roomLink == None
      ensures replay == None && sent == []
    {
      this.channelName := channelName;
      otherUsername := "";
      user, otherUser, roomLink := None, None, None;
      status, replay, sent := Connecting, None, [];
    }

    /** Connected, with both users known and the room link derived from them. */
    predicate Joined()
      reads this
    {
      && status == Accepted && user.Some? && otherUser.Some?
      && roomLink == Some(CreateRoomLink(user.value.username, otherUser.value))
    }

    method EnsureRoomExists(db: Database, link: string) returns (room: Room)
      requires db.Valid() && user.Some? && otherUser.Some?
      modifies db
      ensures db.Valid()
      ensures (db.rooms, db.memberships)
           == EnsureDirectRoomState(old(db.rooms), old(db.memberships), link, user.value.username, otherUser.value)
      ensures db.messages == old(db.messages) && db.clock == old(db.clock)
      ensures room in db.rooms && room.link == link
    {
      var found := FindRoom(db.rooms, link);
      if found.None? {
        var saved := db.SaveRoom(Room(link, None, Direct, link), []);
        room := saved.value;
      } else {
        room := found.value;
      }
      LinksAppend(old(db.rooms), Room(link, None, Direct, link));
      if !HasMembership(db.memberships, user.value.username, link) {
        var _ := db.CreateMembership(user.value.username, link, None);
      }
      if !HasMembership(db.memberships, otherUser.value, link) {
        var _ := db.CreateMembership(otherUser.value, link, None);
      }
    }

    method Connect(otherName: string, headers: Headers, tokens: TokenOracle, accounts: set<string>,
                   db: Database, layer: Layer<ChatEvent>)
      requires status == Connecting && db.Valid() && layer.Valid()
      modifies this, db, layer
      ensures db.Valid() && layer.Valid() && layer.inboxes == old(layer.inboxes)
      ensures db.messages == old(db.messages) && db.clock == old(db.clock) && sent == old(sent)
      ensures otherUsername == otherName
      ensures match DirectChatGate(headers, tokens, accounts, otherName)
        case DirectRefused(reason) =>
          && status == Closed(CloseCode, ReasonText(reason)) && roomLink == old(roomLink)
          && unchanged(db) && layer.groups == old(layer.groups)
        case DirectAdmitted(u, link) =>
          && Joined() && user == Some(u) && roomLink == Some(link)
          && (db.rooms, db.memberships) == EnsureDirectRoomState(old(db.rooms), old(db.memberships), link, u.username, otherName)
          && layer.groups == AddToGroup(old(layer.groups), link, channelName)
          && replay == HistoryPayload(FetchPreviousMessages(db.rooms, db.messages, link))
    {
      var gate := CheckConnect(otherName, headers, tokens, accounts);
      if gate.DirectAdmitted? {
        Join(gate.roomLink, db, layer);
      }
    }

    /** The checks of `connect`, in order: token present and valid, user
        authenticated, other user exists, not oneself. The first check that
        fails closes the connection with its reason. */
    method CheckConnect(otherName: string, headers: Headers, tokens: TokenOracle, accounts: set<string>)
      returns (gate: DirectGate)
      modifies this
      ensures gate == DirectChatGate(headers, tokens, accounts, otherName)
      ensures otherUsername == otherName
      ensures roomLink == old(roomLink) && replay == old(replay) && sent == old(sent)
      ensures gate.DirectRefused? ==> status == Closed(CloseCode, ReasonText(gate.reason))
      ensures gate.DirectAdmitted? ==>
        status == old(status) && user == Some(gate.user) && otherUser == Some(otherName)
    {
      otherUsername := otherName;
      var auth := Authenticate(headers, tokens);
      if auth.Failure? {
        status := Closed(CloseCode, ReasonText(auth.error));
        return DirectRefused(auth.error);
      }
      var u := auth.value;
      user := Some(u);
      if !u.authenticated {
        status := Closed(CloseCode, ReasonText(NotAuthenticated));
        return DirectRefused(NotAuthenticated);
      }
      if otherName !in accounts {
        status := Closed(CloseCode, ReasonText(NoSuchUser));
        return DirectRefused(NoSuchUser);
      }
      otherUser := Some(otherName);
      if u.username == otherName {
        status := Closed(CloseCode, ReasonText(SelfConnect));
        return DirectRefused(SelfConnect);
      }
      gate := DirectAdmitted(u, CreateRoomLink(u.username, otherName));
    }

    /** The steps of `connect` after every check passed: record the room
        link, create the room and memberships if needed, join the room's group,
        accept, and build the history list of the room. */
    method Join(link: string, db: Database, layer: Layer<ChatEvent>)
      requires user.Some? && otherUser.Some? && link == CreateRoomLink(user.value.username, otherUser.value)
      requires db.Valid() && layer.Valid()
      modifies this, db, layer
      ensures Joined() && roomLink == Some(link)
      ensures unchanged(this`user, this`otherUser, this`otherUsername, this`sent)
      ensures db.Valid() && db.messages == old(db.messages) && db.clock == old(db.clock)
      ensures (db.rooms, db.memberships)
           == EnsureDirectRoomState(old(db.rooms), old(db.memberships), link, user.value.username, otherUser.value)
      ensures layer.Valid() && layer.inboxes == old(layer.inboxes)
      ensures layer.groups == AddToGroup(old(layer.groups), link, channelName)
      ensures replay == HistoryPayload(FetchPreviousMessages(db.rooms, db.messages, link))
    {
      roomLink := Some(link);
      var _ := EnsureRoomExists(db, link);
      layer.GroupAdd(link, channelName);
      status := Accepted;
      replay := SendPreviousMessages(db.rooms, db.messages, link);
    }

    /** `disconnect`: the log line reads `self.room_link`, which is unset when
        `connect` stopped before deriving it; that raises before the discard. */
    method Disconnect(layer: Layer<ChatEvent>) returns (raised: bool)
      requires layer.Valid()
      modifies layer
      ensures layer.Valid() && layer.inboxes == old(layer.inboxes)
      ensures raised <==> roomLink.None?
      ensures layer.groups == if raised then old(layer.groups) else DiscardFromGroup(old(layer.groups), roomLink.value, channelName)
    {
      if roomLink.None? {
        return true;
      }
      layer.GroupDiscard(roomLink.value, channelName);
      raised := false;
    }

    /** `save_message`: always a TEXT message in the room of the two users;
        `None` when the room lookup raises. */
    method SaveMessage(db: Database, author: User, other: string, content: string) returns (saved: Option<Message>)
      requires db.Valid()
      modifies db
      ensures db.Valid()
      ensures var link := CreateRoomLink(author.username, other);
        && (link !in Links(old(db.rooms)) ==> saved.None? && unchanged(db))
        && (link in Links(old(db.rooms)) ==>
          && saved == Some(Message(old(db.clock), author.username, link, Some(content), "TEXT", None, None, old(db.clock)))
          && db.messages == old(db.messages) + [saved.value] && db.clock == old(db.clock) + 1
          && db.rooms == old(db.rooms) && db.memberships == old(db.memberships))
    {
      var link := CreateRoomLink(author.username, other);
      var room := FindRoom(db.rooms, link);
      if room.None? {
        return None;
      }
      var m := db.CreateMessage(author.username, room.value.link, Some(content), "TEXT", None, None);
      saved := Some(m);
    }

    method Receive(payload: Payload, db: Database, layer: Layer<ChatEvent>) returns (outcome: Handled)
      requires Joined() && db.Valid() && layer.Valid()
      modifies this, db, layer
      ensures db.Valid() && layer.Valid() && layer.groups == old(layer.groups)
      ensures user == old(user) && otherUser == old(otherUser) && roomLink == old(roomLink)
      ensures replay == old(replay) && sent == old(sent)
      ensures match DirectReceiveAction(payload)
        case DirectIgnore =>
          outcome == Ignored && status == old(status) && unchanged(db) && layer.inboxes == old(layer.inboxes)
        case DirectClose =>
          && outcome == ClosedOnError && status == Closed(CloseCode, ReasonText(ProcessingError))
          && unchanged(db) && layer.inboxes == old(layer.inboxes)
        case DirectPersist(content) =>
          if roomLink.value !in Links(old(db.rooms)) then
            && outcome == ClosedOnError && status == Closed(CloseCode, ReasonText(ProcessingError))
            && unchanged(db) && layer.inboxes == old(layer.inboxes)
          else
            var m := Message(old(db.clock), user.value.username, roomLink.value, Some(content), "TEXT", None, None, old(db.clock));
            && outcome == Broadcast(m) && status == old(status)
            && db.messages == old(db.messages) + [m] && db.clock == old(db.clock) + 1
            && db.rooms == old(db.rooms) && db.memberships == old(db.memberships)
            && layer.inboxes == Deliver(old(layer.inboxes), Subscribers(old(layer.groups), roomLink.value),
                                        ChatEvent(user.value.username, content, None, m.timestamp))
    {
      var action := DirectReceiveAction(payload);
      match action {
        case DirectClose =>
          status := Closed(CloseCode, ReasonText(ProcessingError));
          return ClosedOnError;
        case DirectIgnore =>
          return Ignored;
        case DirectPersist(content) =>
          var saved := SaveMessage(db, user.value, otherUser.value, content);
          if saved.None? {
            status := Closed(CloseCode, ReasonText(ProcessingError));
            return ClosedOnError;
          }
          var event := ChatEvent(user.value.username, content, None, saved.value.timestamp);
          layer.GroupSend(roomLink.value, event);
          outcome := Broadcast(saved.value);
      }
    }

    /** `chat_message`: forward a group event to the websocket. */
    method ChatMessage(event: ChatEvent)
      modifies this
      ensures sent == old(sent) + [event]
      ensures status == old(status) && user == old(user) && otherUser == old(otherUser) && roomLink == old(roomLink)
    {
      sent := sent + [event];
    }
  }
}
