/** The persistent side of the chat: rooms, memberships and messages
    (chat/models.py), with the room-link rules that `ChatRoom.save` enforces
    and the table constraints the database adds. */
module ChatModels {
  import opened Base

  datatype RoomType = Public | Private | Direct
  datatype Role = Admin | Member

  /** A chat room. `link` is its unique, URL-facing key; rooms are referred
      to by link everywhere below. */
  datatype Room = Room(name: string, description: Option<string>, roomType: RoomType, link: string)

  /** A row of `RoomMembership`: `user` is a username. */
  datatype Membership = Membership(user: string, roomLink: string, role: Role)

  /** A row of `Message`. `messageType` is stored as given: the model field's
      choices are not enforced when a row is created. */
  datatype Message = Message(
    id: nat,
    author: string,
    roomLink: string,
    content: Option<string>,
    messageType: string,
    file: Option<string>,
    parent: Option<nat>,
    timestamp: nat)

  // ---------------------------------------------------------------------
  // Link format and random links

  /** A character of `string.ascii_letters + string.digits + '_'`. */
  predicate IsLinkChar(c: char) {
    ('a' <= c <= 'z') || ('A' <= c <= 'Z') || ('0' <= c <= '9') || c == '_'
  }

  /** A character of `string.ascii_letters + string.digits`. */
  predicate IsAlnum(c: char) {
    ('a' <= c <= 'z') || ('A' <= c <= 'Z') || ('0' <= c <= '9')
  }

  /** `ChatRoom.is_valid_link_format`: every character, checked left to right,
      is a letter, a digit or an underscore. */
  function IsValidLinkFormat(link: string): (ok: bool)
    ensures ok <==> forall i :: 0 <= i < |link| ==> IsLinkChar(link[i])
  {
    if link == [] then true
    else IsLinkChar(link[0]) && IsValidLinkFormat(link[1..])
  }

  const RandomLinkLength: nat := 13
  const AlphabetSize: nat := 62

  /** The `k`-th character of `string.ascii_letters + string.digits`
      (lower case, then upper case, then digits). */
  function AlphabetAt(k: nat): (c: char)
    requires k < AlphabetSize
    ensures IsAlnum(c)
  {
    if k < 26 then (('a' as int) + k) as char
    else if k < 52 then (('A' as int) + (k - 26)) as char
    else (('0' as int) + (k - 52)) as char
  }

  /** Where an alphanumeric character sits in that alphabet. */
  function AlphabetIndex(c: char): (k: nat)
    requires IsAlnum(c)
    ensures k < AlphabetSize && AlphabetAt(k) == c
  {
    if 'a' <= c <= 'z' then (c as int) - ('a' as int)
    else if 'A' <= c <= 'Z' then 26 + (c as int) - ('A' as int)
    else 52 + (c as int) - ('0' as int)
  }

  /** One batch of `random.choices(letters_and_digits, k=13)`: 13 positions
      into the alphabet. */
  predicate IsPickBatch(picks: seq<nat>) {
    |picks| == RandomLinkLength && forall i :: 0 <= i < |picks| ==> picks[i] < AlphabetSize
  }

  /** The random source of successive `generate_random_link` calls. */
  predicate ValidDraws(draws: seq<seq<nat>>) {
    forall i :: 0 <= i < |draws| ==> IsPickBatch(draws[i])
  }

  /** `ChatRoom.generate_random_link`, with the random choices as a parameter. */
  function GenerateRandomLink(picks: seq<nat>): (link: string)
    requires IsPickBatch(picks)
    ensures |link| == RandomLinkLength
    ensures forall i :: 0 <= i < |link| ==> link[i] == AlphabetAt(picks[i])
  {
    seq(RandomLinkLength, i requires 0 <= i < RandomLinkLength => AlphabetAt(picks[i]))
  }

  /** A generated link is 13 letters and digits, and so has a valid link format. */
  lemma RandomLinkShape(picks: seq<nat>)
    requires IsPickBatch(picks)
    ensures var link := GenerateRandomLink(picks);
      |link| == 13 && (forall i :: 0 <= i < |link| ==> IsAlnum(link[i])) && IsValidLinkFormat(link)
  {
    var link := GenerateRandomLink(picks);
    assert forall i :: 0 <= i < |link| ==> IsAlnum(link[i]) by {
      forall i | 0 <= i < |link| ensures IsAlnum(link[i]) {
        assert link[i] == AlphabetAt(picks[i]);
      }
    }
  }

  /** Every 13-character alphanumeric string is a possible generated link. */
  lemma RandomLinkCovers(link: string)
    requires |link| == RandomLinkLength
    requires forall i :: 0 <= i < |link| ==> IsAlnum(link[i])
    ensures exists picks :: IsPickBatch(picks) && GenerateRandomLink(picks) == link
  {
    var picks := seq(RandomLinkLength, i requires 0 <= i < RandomLinkLength => AlphabetIndex(link[i]));
    assert IsPickBatch(picks);
    assert GenerateRandomLink(picks) == link;
  }

  // ---------------------------------------------------------------------
  // Table queries

  /** The links of the stored rooms (`ChatRoom.objects.filter(link=...).exists()`
      asks whether a link is in this set). */
  function Links(rooms: seq<Room>): set<string> {
    set r | r in rooms :: r.link
  }

  lemma LinksAppend(rooms: seq<Room>, room: Room)
    ensures Links(rooms + [room]) == Links(rooms) + {room.link}
  {
    assert forall r :: r in rooms + [room] <==> r in rooms || r == room;
  }

  /** The `unique=True` constraint on `ChatRoom.link`. */
  predicate LinksUnique(rooms: seq<Room>) {
    forall i, j :: 0 <= i < |rooms| && 0 <= j < |rooms| && rooms[i].link == rooms[j].link ==> i == j
  }

  /** `ChatRoom.objects.get(link=link)`: the room with that link, if any. */
  function FindRoom(rooms: seq<Room>, link: string): (r: Option<Room>)
    ensures r.Some? ==> r.value in rooms && r.value.link == link
    ensures r.None? <==> link !in Links(rooms)
  {
    if rooms == [] then None
    else if rooms[0].link == link then Some(rooms[0])
    else
      assert rooms == [rooms[0]] + rooms[1..];
      FindRoom(rooms[1..], link)
  }

  /** Under the unique constraint, the room found by link is the stored row at
      any position holding that link. */
  lemma {:induction false} FindRoomUnique(rooms: seq<Room>, k: nat)
    requires LinksUnique(rooms) && k < |rooms|
    ensures FindRoom(rooms, rooms[k].link) == Some(rooms[k])
  {
    if k > 0 {
      assert rooms[0].link != rooms[k].link;
      assert LinksUnique(rooms[1..]) by {
        forall i, j | 0 <= i < |rooms| - 1 && 0 <= j < |rooms| - 1 && rooms[1..][i].link == rooms[1..][j].link
          ensures i == j
        {
          assert rooms[i + 1].link == rooms[j + 1].link;
        }
      }
      FindRoomUnique(rooms[1..], k - 1);
    }
  }

  /** `RoomMembership.objects.filter(user=user, room=room).exists()`. */
  predicate HasMembership(ms: seq<Membership>, user: string, link: string) {
    exists i :: 0 <= i < |ms| && ms[i].user == user && ms[i].roomLink == link
  }

  /** The `unique_together = ('user', 'room')` constraint on `RoomMembership`. */
  predicate MembershipsUnique(ms: seq<Membership>) {
    forall i, j :: 0 <= i < |ms| && 0 <= j < |ms| && ms[i].user == ms[j].user && ms[i].roomLink == ms[j].roomLink ==> i == j
  }

  /** How many memberships `user` holds in the room `link`. */
  function MembershipCount(ms: seq<Membership>, user: string, link: string): nat {
    Count(ms, (m: Membership) => m.user == user && m.roomLink == link)
  }

  /** Under `unique_together`, a user who holds a membership holds exactly one. */
  lemma MembershipCountOne(ms: seq<Membership>, user: string, link: string)
    requires MembershipsUnique(ms) && HasMembership(ms, user, link)
    ensures MembershipCount(ms, user, link) == 1
  {
    var p := (m: Membership) => m.user == user && m.roomLink == link;
    var k :| 0 <= k < |ms| && ms[k].user == user && ms[k].roomLink == link;
    assert AtMostOne(ms, p);
    CountUnique(ms, p, k);
  }

  /** How many stored rooms carry `link`. */
  function RoomCount(rooms: seq<Room>, link: string): nat {
    Count(rooms, (r: Room) => r.link == link)
  }

  /** Under the unique constraint, a stored link names exactly one room. */
  lemma RoomCountOne(rooms: seq<Room>, link: string)
    requires LinksUnique(rooms) && link in Links(rooms)
    ensures RoomCount(rooms, link) == 1
  {
    var p := (r: Room) => r.link == link;
    var k :| 0 <= k < |rooms| && rooms[k].link == link;
    assert AtMostOne(rooms, p);
    CountUnique(rooms, p, k);
  }

  /** Adding a membership for a (user, room) pair not yet present keeps
      `unique_together`. */
  lemma AppendMembershipUnique(ms: seq<Membership>, m: Membership)
    requires MembershipsUnique(ms) && !HasMembership(ms, m.user, m.roomLink)
    ensures MembershipsUnique(ms + [m])
  {
    var ms' := ms + [m];
    assert forall i :: 0 <= i < |ms| ==> ms'[i] == ms[i];
  }

  /** Adding a room whose link is not stored keeps the link unique. */
  lemma AppendRoomUnique(rooms: seq<Room>, room: Room)
    requires LinksUnique(rooms) && room.link !in Links(rooms)
    ensures LinksUnique(rooms + [room])
  {
    var rooms' := rooms + [room];
    assert forall i :: 0 <= i < |rooms| ==> rooms'[i] == rooms[i] && rooms[i] in rooms;
  }

  // ---------------------------------------------------------------------
  // Message ordering (`Meta.ordering = ['timestamp']`)

  predicate SortedByTimestamp(ms: seq<Message>) {
    forall i, j :: 0 <= i < j < |ms| ==> ms[i].timestamp <= ms[j].timestamp
  }

  /** Insert `m` before the first message with a later-or-equal timestamp. */
  function InsertByTimestamp(m: Message, ms: seq<Message>): (r: seq<Message>)
    requires SortedByTimestamp(ms)
    ensures SortedByTimestamp(r)
    ensures multiset(r) == multiset(ms) + multiset{m}
    ensures |r| == |ms| + 1
    ensures r[0] == m || (ms != [] && r[0] == ms[0])
  {
    if ms == [] || m.timestamp <= ms[0].timestamp then [m] + ms
    else
      var tail := InsertByTimestamp(m, ms[1..]);
      assert ms == [ms[0]] + ms[1..];
      [ms[0]] + tail
  }

  /** The messages in the default order of the `Message` table: ascending
      timestamp. */
  function OrderByTimestamp(ms: seq<Message>): (r: seq<Message>)
    ensures SortedByTimestamp(r)
    ensures multiset(r) == multiset(ms)
  {
    if ms == [] then []
    else
      assert ms == [ms[0]] + ms[1..];
      InsertByTimestamp(ms[0], OrderByTimestamp(ms[1..]))
  }

  /** `Message.objects.filter(room=room)`: the messages of one room. */
  function RoomMessages(ms: seq<Message>, link: string): seq<Message> {
    Filter(ms, (m: Message) => m.roomLink == link)
  }

  // ---------------------------------------------------------------------
  // ChatRoom.save

  datatype SaveError =
    | InvalidLinkFormat    // ValueError("The provided link format is invalid.")
    | LinkInUse            // ValueError("The provided link is already in use.")
    | DuplicateLink        // IntegrityError from the unique constraint on link
    | LinkSpaceExhausted   // the random source ran dry (a bound of this model only)

  /** The first generated link not already taken, drawing batch after batch
      as the regeneration loop of `ChatRoom.save` does. */
  function FirstFreeLink(taken: set<string>, draws: seq<seq<nat>>): (r: Option<string>)
    requires ValidDraws(draws)
    ensures r.Some? ==> r.value !in taken
    ensures r.Some? ==>
      exists i :: (0 <= i < |draws| && r.value == GenerateRandomLink(draws[i])
                   && forall j :: 0 <= j < i ==> GenerateRandomLink(draws[j]) in taken)
    ensures r.None? <==> forall i :: 0 <= i < |draws| ==> GenerateRandomLink(draws[i]) in taken
  {
    if draws == [] then None
    else
      var link := GenerateRandomLink(draws[0]);
      if link !in taken then Some(link)
      else
        var r := FirstFreeLink(taken, draws[1..]);
        assert forall i :: 1 <= i < |draws| ==> draws[i] == draws[1..][i - 1];
        if r.Some? then
          var i :| 0 <= i < |draws| - 1 && r.value == GenerateRandomLink(draws[1..][i])
            && forall j :: 0 <= j < i ==> GenerateRandomLink(draws[1..][j]) in taken;
          assert r.value == GenerateRandomLink(draws[i + 1]);
          assert forall j :: 1 <= j < i + 1 ==> GenerateRandomLink(draws[j]) in taken;
          r
        else r
  }

  /** What `ChatRoom.save` followed by the insert does to a new room, given the
      links already stored: the room as stored, or the error raised. */
  function SaveOutcome(taken: set<string>, room: Room, draws: seq<seq<nat>>): (r: Result<Room, SaveError>)
    requires ValidDraws(draws)
    ensures r.Success? ==> r.value.link !in taken && r.value == room.(link := r.value.link)
    ensures r.Success? && room.link != "" ==> r.value == room
  {
    if room.roomType == Private && room.link == "" then
      match FirstFreeLink(taken, draws)
      case None => Failure(LinkSpaceExhausted)
      case Some(link) => Success(room.(link := link))
    else if room.roomType == Public && room.link != "" then
      if !IsValidLinkFormat(room.link) then Failure(InvalidLinkFormat)
      else if room.link in taken then Failure(LinkInUse)
      else Success(room)
    else if room.link in taken then Failure(DuplicateLink)
    else Success(room)
  }

  /** A PUBLIC room with a link is saved iff the link has a valid format and is
      not in use; each failure is reported by its own error. */
  lemma SavePublicIff(taken: set<string>, room: Room, draws: seq<seq<nat>>)
    requires ValidDraws(draws)
    requires room.roomType == Public && room.link != ""
    ensures SaveOutcome(taken, room, draws).Success? <==> IsValidLinkFormat(room.link) && room.link !in taken
    ensures !IsValidLinkFormat(room.link) ==> SaveOutcome(taken, room, draws) == Failure(InvalidLinkFormat)
    ensures IsValidLinkFormat(room.link) && room.link in taken ==> SaveOutcome(taken, room, draws) == Failure(LinkInUse)
  {
  }

  /** A PRIVATE room saved without a link receives a fresh 13-character
      alphanumeric link. */
  lemma {:induction false} SavePrivateGeneratesFreshLink(taken: set<string>, room: Room, draws: seq<seq<nat>>)
    requires ValidDraws(draws)
    requires room.roomType == Private && room.link == ""
    requires SaveOutcome(taken, room, draws).Success?
    ensures var link := SaveOutcome(taken, room, draws).value.link;
      link !in taken && |link| == 13 && IsValidLinkFormat(link)
      && forall i :: 0 <= i < |link| ==> IsAlnum(link[i])
  {
    var link := SaveOutcome(taken, room, draws).value.link;
    var i :| 0 <= i < |draws| && link == GenerateRandomLink(draws[i]);
    RandomLinkShape(draws[i]);
  }

  /** No format check runs for a PUBLIC room without a link, a PRIVATE room
      with a link, or a DIRECT room: only the unique constraint decides. */
  lemma SaveWithoutLinkCheck(taken: set<string>, room: Room, draws: seq<seq<nat>>)
    requires ValidDraws(draws)
    requires room.roomType == Direct || (room.roomType == Private && room.link != "") || (room.roomType == Public && room.link == "")
    ensures SaveOutcome(taken, room, draws) == if room.link in taken then Failure(DuplicateLink) else Success(room)
  {
  }

  /** Saving a PUBLIC room that is already stored fails: the in-use check
      does not exclude the room itself. */
  lemma ResaveStoredPublicFails(rooms: seq<Room>, room: Room, draws: seq<seq<nat>>)
    requires ValidDraws(draws)
    requires room in rooms && room.roomType == Public && room.link != ""
    ensures SaveOutcome(Links(rooms), room, draws).Failure?
  {
    assert room.link in Links(rooms);
  }

  // ---------------------------------------------------------------------
  // The tables

  datatype CreateError = NoSuchRoom | AlreadyMember

  /** The three tables, with the constraints the schema declares. Timestamps
      come from `clock`, which also numbers the messages. */
  class Database {
    var rooms: seq<Room>
    var memberships: seq<Membership>
    var messages: seq<Message>
    var clock: nat

    ghost predicate Valid()
      reads this
    {
      && LinksUnique(rooms)
      && MembershipsUnique(memberships)
      && (forall i :: 0 <= i < |memberships| ==> memberships[i].roomLink in Links(rooms))
      && (forall i :: 0 <= i < |messages| ==> messages[i].roomLink in Links(rooms) && messages[i].timestamp < clock)
    }

    constructor ()
      ensures Valid()
      ensures rooms == [] && memberships == [] && messages == [] && clock == 0
    {
      rooms, memberships, messages, clock := [], [], [], 0;
    }

    /** `ChatRoom.save` on a new room, then the insert. */
    method SaveRoom(room: Room, draws: seq<seq<nat>>) returns (result: Result<Room, SaveError>)
      requires Valid() && ValidDraws(draws)
      modifies this
      ensures Valid()
      ensures result == SaveOutcome(Links(old(rooms)), room, draws)
      ensures rooms == if result.Success? then old(rooms) + [result.value] else old(rooms)
      ensures memberships == old(memberships) && messages == old(messages) && clock == old(clock)
    {
      var link := room.link;
      if room.roomType == Private && link == "" {
        if |draws| == 0 {
          return Failure(LinkSpaceExhausted);
        }
        var i := 0;
        link := GenerateRandomLink(draws[0]);
        while link in Links(rooms)
          invariant 0 <= i < |draws|
          invariant link == GenerateRandomLink(draws[i])
          invariant FirstFreeLink(Links(rooms), draws) == FirstFreeLink(Links(rooms), draws[i..])
          decreases |draws| - i
        {
          assert draws[i..][1..] == draws[i + 1..];
          if i + 1 == |draws| {
            return Failure(LinkSpaceExhausted);
          }
          i := i + 1;
          link := GenerateRandomLink(draws[i]);
        }
      } else if room.roomType == Public && link != "" {
        if !IsValidLinkFormat(link) {
          return Failure(InvalidLinkFormat);
        }
        if link in Links(rooms) {
          return Failure(LinkInUse);
        }
      }
      if link in Links(rooms) {
        return Failure(DuplicateLink);
      }
      var saved := room.(link := link);
      LinksAppend(rooms, saved);
      rooms := rooms + [saved];
      result := Success(saved);
    }

    /** `RoomMembership.objects.create(user=..., room=..., role=...)`; the role
        defaults to MEMBER. The foreign key and `unique_together` are enforced. */
    method CreateMembership(user: string, link: string, role: Option<Role>) returns (result: Result<Membership, CreateError>)
      requires Valid()
      modifies this
      ensures Valid()
      ensures result == if link !in Links(rooms) then Failure(NoSuchRoom)
        else if HasMembership(old(memberships), user, link) then Failure(AlreadyMember)
        else Success(Membership(user, link, role.GetOr(Member)))
      ensures memberships == if result.Success? then old(memberships) + [result.value] else old(memberships)
      ensures rooms == old(rooms) && messages == old(messages) && clock == old(clock)
    {
      if link !in Links(rooms) {
        return Failure(NoSuchRoom);
      }
      if HasMembership(memberships, user, link) {
        return Failure(AlreadyMember);
      }
      var m := Membership(user, link, role.GetOr(Member));
      memberships := memberships + [m];
      result := Success(m);
    }

    /** `Message.objects.create(...)`: a new row stamped with the current time. */
    method CreateMessage(author: string, link: string, content: Option<string>, messageType: string,
                         file: Option<string>, parent: Option<nat>) returns (m: Message)
      requires Valid() && link in Links(rooms)
      modifies this
      ensures Valid()
      ensures m == Message(old(clock), author, link, content, messageType, file, parent, old(clock))
      ensures messages == old(messages) + [m] && clock == old(clock) + 1
      ensures rooms == old(rooms) && memberships == old(memberships)
    {
      m := Message(clock, author, link, content, messageType, file, parent, clock);
      messages := messages + [m];
      clock := clock + 1;
    }
  }
}
