/** The REST views of the chat app: room creation, the room listings, the
    room detail, joining a room by link, and message creation. The
    requester is the authenticated user, given by username (the
    `IsAuthenticated` permission has already admitted the request). */
module ChatViews {
  import opened Base
  import opened ChatModels
  import opened ChatSerializers

  const HTTP_200_OK := 200
  const HTTP_201_CREATED := 201
  const HTTP_400_BAD_REQUEST := 400
  const HTTP_403_FORBIDDEN := 403
  const HTTP_404_NOT_FOUND := 404
  /** What the server answers when a view raises. */
  const HTTP_500_INTERNAL_SERVER_ERROR := 500

  const MaxNameLength := 255
  const MaxLinkLength := 20

  /** No two positions of `s` hold the same value. */
  ghost predicate Distinct<T>(s: seq<T>) {
    forall i, j :: 0 <= i < |s| && 0 <= j < |s| && s[i] == s[j] ==> i == j
  }

  lemma DistinctTail<T>(s: seq<T>)
    requires s != [] && Distinct(s)
    ensures Distinct(s[1..]) && s[0] !in s[1..]
  {
    forall i, j | 0 <= i < |s| - 1 && 0 <= j < |s| - 1 && s[1..][i] == s[1..][j]
      ensures i == j
    {
      assert s[i + 1] == s[j + 1];
    }
    forall k | 0 <= k < |s| - 1
      ensures s[1..][k] != s[0]
    {
      assert s[k + 1] != s[0];
    }
  }

  lemma DistinctCons<T>(x: T, rest: seq<T>)
    requires x !in rest && Distinct(rest)
    ensures Distinct([x] + rest)
  {
    var r := [x] + rest;
    assert forall k :: 0 < k < |r| ==> r[k] == rest[k - 1] && rest[k - 1] in rest;
    forall i, j | 0 < i < |r| && 0 < j < |r| && r[i] == r[j]
      ensures i == j
    {
      assert rest[i - 1] == rest[j - 1];
    }
  }

  /** Filtering keeps distinct rows distinct. */
  lemma {:induction false} FilterDistinct<T(!new)>(s: seq<T>, keep: T -> bool)
    requires Distinct(s)
    ensures Distinct(Filter(s, keep))
  {
    if s != [] {
      DistinctTail(s);
      FilterDistinct(s[1..], keep);
      if keep(s[0]) {
        DistinctCons(s[0], Filter(s[1..], keep));
      }
    }
  }

  /** Rows with unique links are distinct rows. */
  lemma LinksUniqueDistinct(rooms: seq<Room>)
    requires LinksUnique(rooms)
    ensures Distinct(rooms)
  {
    forall i, j | 0 <= i < |rooms| && 0 <= j < |rooms| && rooms[i] == rooms[j]
      ensures i == j
    {
      assert rooms[i].link == rooms[j].link;
    }
  }

  // ---------------------------------------------------------------------
  // CreateChatRoomView.post

  /** The field checks `ChatRoomSerializer.is_valid` derives from the model
      fields: a non-blank name of at most 255 characters, and a non-blank link
      of at most 20 characters that no stored room has (`unique=True`). */
  predicate RoomFieldsValid(rooms: seq<Room>, input: Room) {
    && input.name != "" && |input.name| <= MaxNameLength
    && input.link != "" && |input.link| <= MaxLinkLength
    && input.link !in Links(rooms)
  }

  /** Through the view a room always arrives with a fresh link, so no link is
      ever generated and the only way the save can still fail is the format
      check of a PUBLIC link. */
  lemma CreateRoomSaveOutcome(rooms: seq<Room>, input: Room, draws: seq<seq<nat>>)
    requires ValidDraws(draws) && RoomFieldsValid(rooms, input)
    ensures SaveOutcome(Links(rooms), input, draws) ==
      if input.roomType == Public && !IsValidLinkFormat(input.link) then Failure(InvalidLinkFormat)
      else Success(input)
  {
  }

  /** The creator of a new room holds the only membership in it, as ADMIN. */
  lemma NewRoomHasOneAdmin(rooms: seq<Room>, memberships: seq<Membership>, room: Room, requester: string)
    requires MembershipsUnique(memberships)
    requires forall i :: 0 <= i < |memberships| ==> memberships[i].roomLink in Links(rooms)
    requires room.link !in Links(rooms)
    ensures var ms := memberships + [Membership(requester, room.link, Admin)];
      && MembershipsUnique(ms)
      && MembershipCount(ms, requester, room.link) == 1
      && forall m :: m in ms && m.roomLink == room.link ==> m == Membership(requester, room.link, Admin)
  {
    var ms := memberships + [Membership(requester, room.link, Admin)];
    assert forall i :: 0 <= i < |memberships| ==> ms[i] == memberships[i] && ms[i].roomLink != room.link;
    assert ms[|memberships|] == Membership(requester, room.link, Admin);
    MembershipCountOne(ms, requester, room.link);
  }

  datatype RoomCreated = RoomCreated(room: Room, admin: string)

  /** `CreateChatRoomView.post`: 400 when the fields are invalid; otherwise
      the room is saved and the requester becomes its ADMIN (201), unless the
      save raises, which the view does not catch (500). */
  method CreateChatRoom(db: Database, requester: string, input: Room, draws: seq<seq<nat>>)
    returns (status: int, created: Option<RoomCreated>)
    requires db.Valid() && ValidDraws(draws)
    modifies db
    ensures db.Valid()
    ensures !RoomFieldsValid(old(db.rooms), input) ==> status == HTTP_400_BAD_REQUEST && created.None? && unchanged(db)
    ensures RoomFieldsValid(old(db.rooms), input) ==>
      match SaveOutcome(Links(old(db.rooms)), input, draws)
      case Failure(_) =>
        && status == HTTP_500_INTERNAL_SERVER_ERROR && created.None?
        && db.rooms == old(db.rooms) && db.memberships == old(db.memberships)
        && db.messages == old(db.messages) && db.clock == old(db.clock)
      case Success(room) =>
        && status == HTTP_201_CREATED && created == Some(RoomCreated(room, requester))
        && db.rooms == old(db.rooms) + [room]
        && db.memberships == old(db.memberships) + [Membership(requester, room.link, Admin)]
        && db.messages == old(db.messages) && db.clock == old(db.clock)
  {
    if !RoomFieldsValid(db.rooms, input) {
      return HTTP_400_BAD_REQUEST, None;
    }
    var saved := db.SaveRoom(input, draws);
    if saved.Failure? {
      return HTTP_500_INTERNAL_SERVER_ERROR, None;
    }
    var room := saved.value;
    LinksAppend(old(db.rooms), room);
    var admin := db.CreateMembership(requester, room.link, Some(Admin));
    status, created := HTTP_201_CREATED, Some(RoomCreated(room, requester));
  }

  // ---------------------------------------------------------------------
  // Listings

  /** `MyDirectChatRoomView.get_queryset`: the DIRECT rooms the requester is a
      member of, each once. */
  function MyDirectRooms(rooms: seq<Room>, memberships: seq<Membership>, user: string): (r: seq<Room>)
    ensures forall room :: room in r <==>
      room in rooms && room.roomType == Direct && HasMembership(memberships, user, room.link)
    ensures LinksUnique(rooms) ==> Distinct(r)
  {
    var keep := (room: Room) => room.roomType == Direct && HasMembership(memberships, user, room.link);
    if LinksUnique(rooms) then
      LinksUniqueDistinct(rooms);
      FilterDistinct(rooms, keep);
      Filter(rooms, keep)
    else Filter(rooms, keep)
  }

  /** `PublicChatRoomListAPIView.queryset`: the PUBLIC rooms, in table order. */
  function PublicRooms(rooms: seq<Room>): (r: seq<Room>)
    ensures forall room :: room in r <==> room in rooms && room.roomType == Public
    ensures |r| <= |rooms|
  {
    Filter(rooms, (room: Room) => room.roomType == Public)
  }

  // ---------------------------------------------------------------------
  // ChatRoomDetailAPIView.get

  /** `NoResponse`: the view falls off its end for a DIRECT room and returns
      `None` instead of a response. */
  datatype Detail = NotFound | Shown(room: Room) | Forbidden | NoResponse {
    function StatusCode(): Option<int> {
      match this
      case NotFound => Some(HTTP_404_NOT_FOUND)
      case Shown(_) => Some(HTTP_200_OK)
      case Forbidden => Some(HTTP_403_FORBIDDEN)
      case NoResponse => None
    }
  }

  function RoomDetail(rooms: seq<Room>, memberships: seq<Membership>, user: string, link: string): (r: Detail)
    ensures r.Shown? ==> r.room in rooms && r.room.link == link
    ensures r.StatusCode() == Some(HTTP_404_NOT_FOUND) <==> link !in Links(rooms)
    ensures r.StatusCode() == Some(HTTP_403_FORBIDDEN) ==> !HasMembership(memberships, user, link)
  {
    match FindRoom(rooms, link)
    case None => NotFound
    case Some(room) =>
      if room.roomType == Public then Shown(room)
      else if room.roomType == Private then
        if HasMembership(memberships, user, room.link) then Shown(room) else Forbidden
      else NoResponse
  }

  /** 404 exactly for an unknown link; a PUBLIC room is shown to everyone; a
      PRIVATE room is shown iff the requester is a member and forbidden
      otherwise; a DIRECT room gets no response at all. */
  lemma RoomDetailCases(rooms: seq<Room>, memberships: seq<Membership>, user: string, room: Room)
    requires LinksUnique(rooms) && room in rooms
    ensures var r := RoomDetail(rooms, memberships, user, room.link);
      && (room.roomType == Public ==> r == Shown(room))
      && (room.roomType == Private ==> (r == Shown(room) <==> HasMembership(memberships, user, room.link)))
      && (room.roomType == Private ==> (r == Forbidden <==> !HasMembership(memberships, user, room.link)))
      && (room.roomType == Direct ==> r == NoResponse)
  {
    var k :| 0 <= k < |rooms| && rooms[k] == room;
    FindRoomUnique(rooms, k);
  }

  lemma RoomDetailNotFound(rooms: seq<Room>, memberships: seq<Membership>, user: string, link: string)
    ensures RoomDetail(rooms, memberships, user, link) == NotFound <==> link !in Links(rooms)
  {
  }

  // ---------------------------------------------------------------------
  // AddRoomMembershipView.post

  datatype AddOutcome = MissingLink | RoomNotFound | AlreadyJoined | Added(membership: Membership) {
    function StatusCode(): int {
      match this
      case MissingLink => HTTP_400_BAD_REQUEST
      case RoomNotFound => HTTP_404_NOT_FOUND
      case AlreadyJoined => HTTP_400_BAD_REQUEST
      case Added(_) => HTTP_201_CREATED
    }
  }

  /** The decision of `AddRoomMembershipView.post` for the `room_link` query
      parameter (absent or empty counts as missing). */
  function AddMembershipDecision(rooms: seq<Room>, memberships: seq<Membership>, user: string,
                                 roomLink: Option<string>): (r: AddOutcome)
    ensures r == MissingLink <==> !Truthy(roomLink)
    ensures r == RoomNotFound <==> Truthy(roomLink) && roomLink.value !in Links(rooms)
    ensures r == AlreadyJoined <==>
      Truthy(roomLink) && roomLink.value in Links(rooms) && HasMembership(memberships, user, roomLink.value)
    ensures r.Added? ==>
      && r.membership.roomLink == roomLink.value
      && r.membership.user == user && r.membership.role == Member
      && r.membership.roomLink in Links(rooms) && !HasMembership(memberships, user, r.membership.roomLink)
  {
    if !Truthy(roomLink) then MissingLink
    else
      match FindRoom(rooms, roomLink.value)
      case None => RoomNotFound
      case Some(room) =>
        if HasMembership(memberships, user, room.link) then AlreadyJoined
        else Added(Membership(user, room.link, Member))
  }

  /** The view never looks at the room type: any stored room, PRIVATE and
      DIRECT ones included, can be joined by anyone who knows its link. */
  lemma AddMembershipIgnoresRoomType(rooms: seq<Room>, memberships: seq<Membership>, user: string, room: Room)
    requires room in rooms && room.link != ""
    requires !HasMembership(memberships, user, room.link)
    ensures AddMembershipDecision(rooms, memberships, user, Some(room.link)) == Added(Membership(user, room.link, Member))
  {
    assert room.link in Links(rooms);
  }

  /** An added membership keeps `unique_together`, and the user then holds
      exactly one membership in the room. */
  lemma AddMembershipOnce(rooms: seq<Room>, memberships: seq<Membership>, user: string, roomLink: Option<string>)
    requires MembershipsUnique(memberships)
    requires AddMembershipDecision(rooms, memberships, user, roomLink).Added?
    ensures var m := AddMembershipDecision(rooms, memberships, user, roomLink).membership;
      && MembershipsUnique(memberships + [m])
      && MembershipCount(memberships + [m], user, m.roomLink) == 1
  {
    var m := AddMembershipDecision(rooms, memberships, user, roomLink).membership;
    var ms := memberships + [m];
    AppendMembershipUnique(memberships, m);
    assert ms[|memberships|] == m;
    MembershipCountOne(ms, user, m.roomLink);
  }

  /** The HTTP status of joining by link: 201 exactly when a membership is
      added, 404 exactly for a given but unknown link, and 400 for a missing
      link or an existing member. */
  lemma AddMembershipStatus(rooms: seq<Room>, memberships: seq<Membership>, user: string, roomLink: Option<string>)
    ensures var r := AddMembershipDecision(rooms, memberships, user, roomLink);
      && (r.StatusCode() == HTTP_201_CREATED <==>
            Truthy(roomLink) && roomLink.value in Links(rooms) && !HasMembership(memberships, user, roomLink.value))
      && (r.StatusCode() == HTTP_404_NOT_FOUND <==> Truthy(roomLink) && roomLink.value !in Links(rooms))
      && (r.StatusCode() == HTTP_400_BAD_REQUEST <==>
            !Truthy(roomLink) || (roomLink.value in Links(rooms) && HasMembership(memberships, user, roomLink.value)))
  {
  }

  /** `AddRoomMembershipView.post`. */
  method AddRoomMembership(db: Database, requester: string, roomLink: Option<string>) returns (outcome: AddOutcome)
    requires db.Valid()
    modifies db
    ensures db.Valid()
    ensures outcome == AddMembershipDecision(old(db.rooms), old(db.memberships), requester, roomLink)
    ensures db.memberships == if outcome.Added? then old(db.memberships) + [outcome.membership] else old(db.memberships)
    ensures db.rooms == old(db.rooms) && db.messages == old(db.messages) && db.clock == old(db.clock)
  {
    if !Truthy(roomLink) {
      return MissingLink;
    }
    var room := FindRoom(db.rooms, roomLink.value);
    if room.None? {
      return RoomNotFound;
    }
    if HasMembership(db.memberships, requester, room.value.link) {
      return AlreadyJoined;
    }
    var saved := db.CreateMembership(requester, room.value.link, Some(Member));
    outcome := Added(saved.value);
  }

  // ---------------------------------------------------------------------
  // MessageListCreateAPIView.perform_create

  const MessageTypes: set<string> := {"TEXT", "IMAGE", "FILE"}

  /** The field checks of `MessageSerializer.is_valid`: the room and the
      parent, when given, exist, and the type is one of the choices. */
  predicate MessageFieldsValid(rooms: seq<Room>, messages: seq<Message>, attrs: MessageAttrs) {
    && attrs.room in Links(rooms)
    && (attrs.parent.Some? ==> exists i :: 0 <= i < |messages| && messages[i].id == attrs.parent.value)
    && (attrs.messageType.Some? ==> attrs.messageType.value in MessageTypes)
  }

  /** The row `serializer.save(user=...)` inserts: the author is the
      requester, and the model defaults fill what the client left out. */
  function StoredMessage(attrs: MessageAttrs, author: string, clock: nat): (m: Message)
    ensures m.author == author && m.roomLink == attrs.room && m.content == attrs.content
    ensures m.messageType == attrs.messageType.GetOr("TEXT")
  {
    Message(clock, author, attrs.room, attrs.content, attrs.messageType.GetOr("TEXT"), attrs.file, attrs.parent, clock)
  }

  /** Because the TEXT default is applied after validation, a message sent
      without a type and without content is stored as an empty TEXT message. */
  lemma UntypedEmptyMessageStored(rooms: seq<Room>, messages: seq<Message>, room: string, author: string, clock: nat)
    requires room in Links(rooms)
    ensures var attrs := MessageAttrs(room, None, None, None, None);
      && MessageFieldsValid(rooms, messages, attrs) && Validate(attrs).Success?
      && StoredMessage(attrs, author, clock).messageType == "TEXT"
      && !Truthy(StoredMessage(attrs, author, clock).content)
  {
  }

  /** `MessageListCreateAPIView.create`: 400 unless the fields and `validate`
      pass; otherwise one message by the requester is stored (201). */
  method MessageCreate(db: Database, requester: string, attrs: MessageAttrs) returns (status: int, created: Option<Message>)
    requires db.Valid()
    modifies db
    ensures db.Valid()
    ensures !(MessageFieldsValid(old(db.rooms), old(db.messages), attrs) && Validate(attrs).Success?) ==>
      status == HTTP_400_BAD_REQUEST && created.None? && unchanged(db)
    ensures MessageFieldsValid(old(db.rooms), old(db.messages), attrs) && Validate(attrs).Success? ==>
      && status == HTTP_201_CREATED && created == Some(StoredMessage(attrs, requester, old(db.clock)))
      && db.messages == old(db.messages) + [created.value] && db.clock == old(db.clock) + 1
      && db.rooms == old(db.rooms) && db.memberships == old(db.memberships)
  {
    if !MessageFieldsValid(db.rooms, db.messages, attrs) {
      return HTTP_400_BAD_REQUEST, None;
    }
    var valid := Validate(attrs);
    if valid.Failure? {
      return HTTP_400_BAD_REQUEST, None;
    }
    var a := valid.value;
    var m := db.CreateMessage(requester, a.room, a.content, a.messageType.GetOr("TEXT"), a.file, a.parent);
    status, created := HTTP_201_CREATED, Some(m);
  }
}
