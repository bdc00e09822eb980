# Chat backend model

A Dafny model of the core of a Django/Channels chat backend. It covers:

- the two websocket consumers: room chat and direct chat;
- the room, membership and message tables, with the rules they enforce;
- the REST views for rooms, memberships and messages;
- the serializers that validate messages and registrations.

Modules:

- `Base`: Option and Result, plus filtering and counting over sequences.
- `Text`: the string operations the code relies on: `startswith`, `split`, `join`, and Python's string order.
- `ChatModels` (chat/models.py):
  - rooms, memberships and messages;
  - the link rules of `ChatRoom.save`, with random links drawn from a random source that is passed in;
  - the `unique` and `unique_together` constraints and the timestamp ordering;
  - a `Database` class whose methods insert rows.
- `ChannelLayer`: the group registry as a map from group name to a set of channel names, plus one event queue per channel. `group_add`, `group_discard` and `group_send` are sequential transitions of a `Layer` object.
- `Consumers` (chat/consumers.py):
  - the bearer-token extraction and the JWT check, the latter as a token-to-user oracle;
  - the ordered connection gates of both consumers;
  - the deterministic direct-room link;
  - `ensure_room_exists`, the history list, and the receive pipeline;
  - the two consumers as classes whose methods change the connection state, the database and the layer.
- `ChatSerializers` (chat/serializers.py): `MessageSerializer.validate`, and the field lists that decide which fields a client may write.
- `ChatViews` (chat/views.py): room creation, the two listings, room detail, joining by link, and message creation.
- `UserSerializers` (user/serializers.py): registration, meaning the field checks, the password confirmation and `create`.

Modelling choices:

- Users are identified by username.
- Rooms are identified by their unique link. Memberships and messages refer to rooms by link.
- Timestamps and message ids come from a counter in the database.
- An inbound websocket frame is modelled after JSON parsing, as one of three things: malformed, not an object, or an object with optional `message` and `message_type`.

Behaviours of the code that the model keeps as written:

- The room-chat gate requires membership for every room type, PUBLIC rooms included. There is no bypass.
- In room chat, a frame that is not a JSON object makes `receive` raise; nothing catches it. The model records this as `Raised`, not as a silent drop.
- In direct chat, a well-formed object without `message` is ignored. The connection is not closed.
- `create_room_link` is symmetric but not injective: two different pairs of usernames can map to the same room (`CreateRoomLinkCollides`).

## Model

| member | source | states |
|---|---|---|
| ChatModels.IsValidLinkFormat | chat/models.py:41-44 | a link is valid iff every character is a letter, a digit or `_` (so the empty link is valid) |
| ChatModels.GenerateRandomLink | chat/models.py:36-39 | the link has 13 characters, the i-th being the alphabet entry the i-th random pick selects |
| ChatModels.RandomLinkShape | chat/models.py:36-39 | a generated link is 13 letters and digits and passes the link-format check |
| ChatModels.RandomLinkCovers | chat/models.py:38-39 | every 13-character alphanumeric string is a possible generated link |
| ChatModels.FindRoom | chat/consumers.py:86-89 | the lookup by link finds a stored room carrying that link, and finds nothing iff no stored room has it |
| ChatModels.FindRoomUnique | chat/models.py:17 | under the unique constraint, the lookup returns exactly the stored row holding the link |
| ChatModels.RoomCountOne | chat/models.py:17 | under the unique constraint, a stored link names exactly one room |
| ChatModels.AppendRoomUnique | chat/models.py:17 | inserting a room whose link is not stored keeps links unique |
| ChatModels.MembershipCountOne | chat/models.py:60-61 | under `unique_together`, a user who holds a membership in a room holds exactly one |
| ChatModels.AppendMembershipUnique | chat/models.py:60-61 | inserting a membership for a new (user, room) pair keeps `unique_together` |
| ChatModels.InsertByTimestamp | chat/models.py:82-83 | inserting into a timestamp-sorted list keeps it sorted and adds exactly that message |
| ChatModels.OrderByTimestamp | chat/models.py:82-83 | the default order is ascending by timestamp and is a permutation of the rows |
| ChatModels.FirstFreeLink | chat/models.py:23-25 | the regeneration loop ends with the first drawn link that is not taken (every earlier draw is taken); it finds none iff every draw is taken |
| ChatModels.SaveOutcome | chat/models.py:21-31 | a successful save stores a link not taken before, changes only the link, and keeps a link that was given |
| ChatModels.SavePublicIff | chat/models.py:26-30 | a PUBLIC room with a link is saved iff the format is valid and the link is unused; each failure gets its own error |
| ChatModels.SavePrivateGeneratesFreshLink | chat/models.py:22-25 | a PRIVATE room saved without a link gets a fresh 13-character alphanumeric link |
| ChatModels.SaveWithoutLinkCheck | chat/models.py:21-31 | a PUBLIC room without a link, a PRIVATE room with a link, or a DIRECT room is checked only by the unique constraint |
| ChatModels.ResaveStoredPublicFails | chat/models.py:29-30 | re-saving a stored PUBLIC room fails, because the in-use check does not exclude the room itself |
| ChatModels.Database.SaveRoom | chat/models.py:21-31 | the loop-based save produces exactly `SaveOutcome`; the room is appended iff it is saved; the table constraints are kept |
| ChatModels.Database.CreateMembership | chat/models.py:55-61 | creating a membership fails for an unknown room or an existing (user, room) pair; otherwise it appends one with the role defaulting to MEMBER |
| ChatModels.Database.CreateMessage | chat/models.py:73-80 | one message row is appended, stamped with the current time, and every message stays in an existing room |
| ChannelLayer.AddToGroup | chat/consumers.py:42-45 | `group_add` adds the channel to that group only and keeps the registry free of empty groups |
| ChannelLayer.DiscardFromGroup | chat/consumers.py:50-53 | `group_discard` removes the channel from that group only and keeps the registry free of empty groups |
| ChannelLayer.AddIdempotent | chat/consumers.py:42-45 | joining a group twice is the same as joining once |
| ChannelLayer.DiscardUndoesAdd | chat/consumers.py:42-53 | a connect's join followed by the disconnect's leave restores the registry |
| ChannelLayer.Deliver | chat/consumers.py:63-72 | `group_send` appends the event once to each subscriber's queue and to no other channel's |
| ChannelLayer.Layer.GroupAdd | chat/consumers.py:141-144 | the registry becomes `AddToGroup` of the old one, and the queues are unchanged |
| ChannelLayer.Layer.GroupDiscard | chat/consumers.py:153-156 | the registry becomes `DiscardFromGroup` of the old one, and the queues are unchanged |
| ChannelLayer.Layer.GroupSend | chat/consumers.py:171-179 | the queues receive `Deliver` to a snapshot of the group's subscribers, and the registry is unchanged |
| Consumers.ExtractToken | chat/consumers.py:190-195 | a token is found iff the header starts with `Bearer `; it is the space-free field that follows, up to the next space or the end |
| Consumers.Authenticate | chat/consumers.py:27-36 | authentication succeeds iff the token is non-empty and accepted, and yields that token's user; the reason is "no token" iff no non-empty token was found, and "invalid token" iff a non-empty token was rejected |
| Consumers.NoBearerMeansNoToken | chat/consumers.py:110-114 | a missing or non-bearer header, or an empty token field, is refused as "no token" |
| Consumers.CreateRoomLink | chat/consumers.py:206-207 | the link starts with `link_` and joins the two usernames with `_` in one of the two orders |
| Consumers.CreateRoomLinkSymmetric | chat/consumers.py:206-207 | the link does not depend on the order of the two users |
| Consumers.CreateRoomLinkOrdered | chat/consumers.py:206-207 | the smaller username, in Python string order, comes first |
| Consumers.CreateRoomLinkCollides | chat/consumers.py:206-207 | ("a_b", "c") and ("a", "b_c") get the same link, so the link is not injective |
| Consumers.IsMember | chat/consumers.py:84-89 | `is_member` holds iff the room exists and the user has a membership in it |
| Consumers.RoomChatGateAdmits | chat/consumers.py:16-40 | a room-chat connection is admitted iff the token is present and valid and the user is a member of an existing room with that link |
| Consumers.RoomChatGate | chat/consumers.py:27-40 | an authentication failure is refused with its own reason; an authenticated user who is not a member of an existing room with the link, whatever its type, is refused as "not a member" |
| Consumers.PublicRoomNeedsMembership | chat/consumers.py:38-40 | an authenticated non-member of a PUBLIC room is refused |
| Consumers.DirectChatGate | chat/consumers.py:107-137 | a connection is admitted iff the token is valid, the user is authenticated, the other user exists and is not oneself; the admitted room link is derived from the two names |
| Consumers.DirectChatGateOrder | chat/consumers.py:112-135 | each refusal names the first of the five checks that fails: no token, invalid token, not authenticated, no such user, oneself |
| Consumers.DirectRoomShared | chat/consumers.py:137 | two users connecting to each other are admitted to the same room link |
| Consumers.RoomReceiveAction | chat/consumers.py:55-60 | room chat raises iff the frame is not a JSON object and persists iff `message` is truthy, with the type defaulting to TEXT |
| Consumers.DirectReceiveAction | chat/consumers.py:158-163 | direct chat closes iff the frame is not a JSON object and persists iff `message` is truthy |
| Consumers.DirectIgnoresObjectWithoutMessage | chat/consumers.py:160-163 | an object whose `message` is missing or empty is ignored, not closed |
| Consumers.EnsureDirectRoomState | chat/consumers.py:210-219 | an existing room is kept; otherwise one DIRECT room named after the link is added; at most two memberships are added, each a MEMBER membership of that room for one of the two users, and none when both are already members |
| Consumers.EnsureDirectRoomExactlyOnce | chat/consumers.py:210-219 | afterwards there is exactly one room with the link and each user holds exactly one membership in it; the constraints hold |
| Consumers.EnsureDirectRoomIdempotent | chat/consumers.py:210-219 | running `ensure_room_exists` again changes nothing |
| Consumers.FetchPreviousMessages | chat/consumers.py:236-242 | the history of an unknown room is empty |
| Consumers.FetchPreviousMessagesSpec | chat/consumers.py:236-242 | the history is sorted by timestamp and holds exactly the room's messages, with their multiplicities |
| Consumers.HistoryPayload | chat/consumers.py:247-256 | the list has one entry per message, in order, and there is nothing to send iff there are no messages |
| Consumers.HistoryOrdered | chat/consumers.py:243-260 | the history list is in ascending timestamp order with one entry per message of the room; an unknown room sends nothing |
| Consumers.BuildPreviousMessages | chat/consumers.py:247-256 | the loop builds exactly `HistoryPayload` of the fetched messages |
| Consumers.SendPreviousMessages | chat/consumers.py:244-256 | the list built for the room is `HistoryPayload` of its fetched history |
| Consumers.RoomChatConsumer.Connect | chat/consumers.py:16-47 | it records the room and group; on admission it joins `chat_<link>` and accepts; on refusal it closes with 4003 and the reason, leaving the registry unchanged |
| Consumers.RoomChatConsumer.Disconnect | chat/consumers.py:49-53 | it discards the channel from the same group connect joined |
| Consumers.RoomChatConsumer.SaveMessage | chat/consumers.py:92-100 | it appends one message of the given type by the user, or raises and stores nothing when the room is gone |
| Consumers.RoomChatConsumer.Receive | chat/consumers.py:55-72 | an ignored or raising frame stores and sends nothing; otherwise one save, then one event carrying the message's type and timestamp to every subscriber |
| Consumers.RoomChatConsumer.ChatMessage | chat/consumers.py:74-76 | it forwards the event to the websocket and changes nothing else |
| Consumers.DirectChatConsumer.CheckConnect | chat/consumers.py:108-135 | the decision is `DirectChatGate`; a refusal closes with 4003 and its reason; an admission records both users |
| Consumers.DirectChatConsumer.EnsureRoomExists | chat/consumers.py:210-222 | the rooms and memberships become `EnsureDirectRoomState`; the returned room is stored under the link |
| Consumers.DirectChatConsumer.Join | chat/consumers.py:137-149 | it records the link, ensures the room, joins the group named by the bare link, accepts, and builds the history |
| Consumers.DirectChatConsumer.Connect | chat/consumers.py:107-149 | a refusal closes with its reason and touches neither the database nor the registry; an admission produces the state `Join` describes |
| Consumers.DirectChatConsumer.Disconnect | chat/consumers.py:151-156 | it raises iff the link was never derived; otherwise it discards the channel from the room's group |
| Consumers.DirectChatConsumer.SaveMessage | chat/consumers.py:225-233 | it appends one TEXT message in the two users' room, or raises and stores nothing |
| Consumers.DirectChatConsumer.Receive | chat/consumers.py:158-182 | an error closes with 4003 and stores nothing; an ignored frame changes nothing; otherwise one TEXT save and one event without a type |
| Consumers.DirectChatConsumer.ChatMessage | chat/consumers.py:184-188 | it forwards the event to the websocket and changes nothing else |
| ChatSerializers.Validate | chat/serializers.py:29-35 | a message that passes validation is returned unchanged |
| ChatSerializers.ValidateIff | chat/serializers.py:31-35 | validation passes iff TEXT has content and IMAGE/FILE has a file; a failing TEXT check is reported as such |
| ChatSerializers.ValidatedCarriesPayload | chat/serializers.py:31-34 | a validated TEXT message has non-empty content, and a validated IMAGE or FILE message has a non-empty file |
| ChatSerializers.UntypedAlwaysValid | chat/serializers.py:31-34 | without `message_type`, neither check fires |
| ChatSerializers.Writable | chat/serializers.py:16-17 | the data a serializer keeps is exactly the declared, non-read-only fields the client sent, with their values |
| ChatSerializers.ClientCannotChooseRole | chat/serializers.py:12-17 | a client cannot set a membership's role, user, id or join time, but does choose its room |
| ChatSerializers.ClientCannotSetTimestamps | chat/serializers.py:9-27 | a client cannot set message or room timestamps, nor a message's author |
| ChatViews.CreateRoomSaveOutcome | chat/views.py:14-16 | through the view, saving fails only for a PUBLIC link of invalid format, and otherwise stores the input as given |
| ChatViews.NewRoomHasOneAdmin | chat/views.py:18-22 | the creator holds the only membership of the new room, as ADMIN, and `unique_together` holds |
| ChatViews.CreateChatRoom | chat/views.py:13-38 | invalid fields give 400 and change nothing; a save that raises gives 500; otherwise 201, the room stored and the creator its ADMIN |
| ChatViews.MyDirectRooms | chat/views.py:45-50 | a room is listed iff it is stored, DIRECT and the requester is a member; no room is listed twice |
| ChatViews.PublicRooms | chat/views.py:54 | a room is listed iff it is stored and PUBLIC |
| ChatViews.RoomDetail | chat/views.py:62-71 | a room that is shown is the stored room with the requested link; the answer is 404 iff the link is unknown; 403 only for a non-member |
| ChatViews.RoomDetailCases | chat/views.py:62-71 | PUBLIC is shown; PRIVATE is shown iff the requester is a member and forbidden otherwise; DIRECT gets no response |
| ChatViews.RoomDetailNotFound | chat/views.py:63 | the detail view answers 404 iff the link is unknown |
| ChatViews.AddMembershipDecision | chat/views.py:81-92 | missing iff no non-empty link is given; not found iff the link is unknown; already joined iff the requester is a member; an added membership is in the requested room, belongs to the requester, has role MEMBER, and is in an existing room the requester was not in |
| ChatViews.AddMembershipStatus | chat/views.py:83-92 | the answer is 201 iff a membership is added, 404 iff a given link is unknown, and 400 iff the link is missing or the requester already is a member |
| ChatViews.AddMembershipIgnoresRoomType | chat/views.py:86-90 | any stored room, PRIVATE or DIRECT included, can be joined by its link |
| ChatViews.AddMembershipOnce | chat/views.py:87-90 | after the add, `unique_together` holds and the user holds exactly one membership in the room |
| ChatViews.AddRoomMembership | chat/views.py:81-92 | the outcome is `AddMembershipDecision`, and exactly that membership is appended when one is added |
| ChatViews.StoredMessage | chat/views.py:100-101 | the stored message's author is the requester, and its type defaults to TEXT |
| ChatViews.UntypedEmptyMessageStored | chat/serializers.py:29-35 | a message with no type and no content passes validation and is stored as an empty TEXT message |
| ChatViews.MessageCreate | chat/views.py:95-101 | a message failing field checks or `validate` gives 400 and stores nothing; otherwise 201 and one message by the requester |
| UserSerializers.Validate | user/serializers.py:24-27 | validation fails iff the passwords differ, and otherwise returns the data unchanged |
| UserSerializers.NewAccount | user/serializers.py:32-36 | the account copies the username, and copies a supplied bio and avatar; bio defaults to `''` and avatar to none |
| UserSerializers.AccountIgnoresConfirmation | user/serializers.py:29-36 | dropping the confirmation does not change the account built |
| UserSerializers.ValidatedData.Create | user/serializers.py:29-39 | `password_confirm` is popped from the validated data, and the account is built from the rest |
| UserSerializers.Register | user/serializers.py:16-39 | an account is created iff the field checks (passwords at least 8 characters) pass and the passwords match; each failure gets its own error |

## Left out

- JWT verification (`UntypedToken`, `JWTAuthentication.get_user`) is an oracle from tokens to users. An accepted token whose user lookup fails is not modelled.
- The async machinery is not modelled: `database_sync_to_async`, `sync_to_async`, and concurrent consumers. Every call is a sequential transition.
- `random.choices` is replaced by a finite sequence of 13-pick draws.
- ChatModels.Database.SaveRoom: the regeneration loop draws from a finite sequence of draws. When every draw is taken, the model reports `LinkSpaceExhausted`, an error the code does not have.
- Database details not modelled:
  - the `max_length=20` limit on links, which long usernames exceed in direct-room links;
  - cascade and SET_NULL deletion;
  - primary keys, because rooms are referenced by link;
  - real timestamps, which are a counter here.
- Request parsing not modelled:
  - `isoformat`;
  - JSON encoding;
  - JSON values of a type other than string.
- Field checks not modelled:
  - the whitespace trimming of DRF character fields;
  - invalid `room_type` choice strings, because the room type is an enumeration here;
  - username validators and username uniqueness.
- The channel layer's own delivery, expiry and capacity are not modelled. `group_send` appends to per-channel queues, and `send` appends to the consumer's `sent` list.
- Logging is not modelled.
- Consumers.DirectChatConsumer.Disconnect: its log line also reads `scope['user']`. Whether that user is set after an early refusal depends on middleware that is not part of this model. Only the unset `room_link` is modelled as raising.
- Consumers.SendPreviousMessages: the code calls `fetch_previous_messages`, `send` and `close` without awaiting them, so as written no history is ever delivered. The model builds the list the code evidently intends and keeps it in the consumer's `replay` field. Sending it is not modelled.
- Consumers.FetchPreviousMessages: its own contract states only the unknown-room case. Ordering and contents are stated in `FetchPreviousMessagesSpec`.
- The DIRECT branch of the room detail view returns no response, and the framework's resulting error is not modelled.
- Password hashing (`set_password`) and the saving of the user row are not modelled. File uploads and response formatting are not modelled either.
- chat/migrations, chat/urls.py, chat/routing.py, user/views.py, user/models.py and `AccountSerializer` are not part of this model.
- `MessageDetailAPIView` (retrieve, update and delete of one message) and the message listing are not modelled.
- Consumers.DirectChatConsumer.Join, Consumers.DirectChatConsumer.Connect and Consumers.RoomChatConsumer.Connect: the channel layer's validation of group names is not modelled. That validation rejects names that use characters outside letters, digits, `_`, `.` and `-`, or that are 100 characters or longer. Direct-room group names are built from usernames, which may contain `@`, `+` or non-ASCII letters. For such users the code raises in `group_add` after `ensure_room_exists` has already written the room and memberships, while the model admits the connection.
- Consumers.ExtractToken: the UTF-8 decoding of the raw header bytes is not modelled. Headers are strings here, so a header that fails to decode is not represented.
- Consumers.RoomChatConsumer.Receive: when `receive` raises, the framework ends the connection's application instance, and `disconnect` then never runs, so the channel stays in its group. The model only reports `Raised`. It keeps the status `Accepted` and still allows a later `Disconnect`.
