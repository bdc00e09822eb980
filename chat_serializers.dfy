/** The REST serializers of the chat app: the cross-field check of
    `MessageSerializer.validate` and the field lists that decide which
    fields a client may write. */
module ChatSerializers {
  import opened Base

  // ---------------------------------------------------------------------
  // MessageSerializer.validate

  /** The attributes of a message after field validation. A field the client
      did not send is `None`; `room` is the room's key (its link in this
      model) and `parent` the id of the replied-to message. */
  datatype MessageAttrs = MessageAttrs(
    room: string,
    content: Option<string>,
    messageType: Option<string>,
    file: Option<string>,
    parent: Option<nat>)

  datatype MessageError =
    | TextWithoutContent     // "Text message must contain content."
    | AttachmentWithoutFile  // "Image/File message must contain a file."

  /** `MessageSerializer.validate`: a TEXT message needs truthy content, an
      IMAGE or FILE message a truthy file; otherwise the attributes pass. */
  function Validate(attrs: MessageAttrs): (r: Result<MessageAttrs, MessageError>)
    ensures r.Success? ==> r.value == attrs
  {
    if attrs.messageType == Some("TEXT") && !Truthy(attrs.content) then Failure(TextWithoutContent)
    else if (attrs.messageType == Some("IMAGE") || attrs.messageType == Some("FILE")) && !Truthy(attrs.file) then
      Failure(AttachmentWithoutFile)
    else Success(attrs)
  }

  /** Validation passes exactly when neither rule is broken, and then it
      returns its input unchanged; each failure names the rule it broke. */
  lemma ValidateIff(attrs: MessageAttrs)
    ensures Validate(attrs).Success? <==>
      && (attrs.messageType == Some("TEXT") ==> Truthy(attrs.content))
      && (attrs.messageType in {Some("IMAGE"), Some("FILE")} ==> Truthy(attrs.file))
    ensures Validate(attrs) == Failure(TextWithoutContent) <==>
      attrs.messageType == Some("TEXT") && !Truthy(attrs.content)
    ensures Validate(attrs).Success? ==> Validate(attrs).value == attrs
  {
  }

  /** A message that passed validation carries what its kind needs. */
  lemma ValidatedCarriesPayload(attrs: MessageAttrs)
    requires Validate(attrs).Success?
    ensures attrs.messageType == Some("TEXT") ==> attrs.content.Some? && |attrs.content.value| > 0
    ensures attrs.messageType == Some("IMAGE") ==> attrs.file.Some? && |attrs.file.value| > 0
    ensures attrs.messageType == Some("FILE") ==> attrs.file.Some? && |attrs.file.value| > 0
  {
  }

  /** Without a `message_type` neither check fires, whatever the content and
      file are (the model default TEXT is only applied when saving). */
  lemma UntypedAlwaysValid(room: string, content: Option<string>, file: Option<string>, parent: Option<nat>)
    ensures Validate(MessageAttrs(room, content, None, file, parent)) == Success(MessageAttrs(room, content, None, file, parent))
  {
  }

  // ---------------------------------------------------------------------
  // Field lists

  /** The fields a serializer declares, and those it only outputs. `id` is an
      auto field, which a model serializer always treats as read-only. */
  datatype FieldSpec = FieldSpec(fields: set<string>, readOnly: set<string>)

  const ChatRoomFields := FieldSpec(
    {"id", "name", "link", "description", "room_type", "created_at", "updated_at"},
    {"id", "created_at", "updated_at"})

  /** `user` is a nested read-only serializer; the rest are `read_only_fields`. */
  const MembershipFields := FieldSpec(
    {"id", "user", "room", "role", "joined_at"},
    {"id", "user", "role", "joined_at"})

  const MessageFields := FieldSpec(
    {"id", "user", "room", "content", "message_type", "file", "parent", "timestamp", "updated_at"},
    {"id", "user", "timestamp", "updated_at"})

  /** What a serializer keeps of the client's data: the declared fields that
      are not read-only; anything else the client sends is dropped. */
  function Writable(spec: FieldSpec, data: map<string, string>): (r: map<string, string>)
    ensures forall k :: k in r <==> k in data && k in spec.fields && k !in spec.readOnly
    ensures forall k :: k in r ==> r[k] == data[k]
  {
    map k | k in data && k in spec.fields && k !in spec.readOnly :: data[k]
  }

  /** A client cannot set the role of a membership, nor its user, id or
      join time. */
  lemma ClientCannotChooseRole(data: map<string, string>)
    ensures "role" !in Writable(MembershipFields, data)
    ensures "user" !in Writable(MembershipFields, data)
    ensures "id" !in Writable(MembershipFields, data) && "joined_at" !in Writable(MembershipFields, data)
    ensures "room" in data ==> Writable(MembershipFields, data)["room"] == data["room"]
  {
  }

  /** A client cannot set the timestamps of a message or a room, nor the
      author of a message. */
  lemma ClientCannotSetTimestamps(data: map<string, string>)
    ensures "timestamp" !in Writable(MessageFields, data) && "updated_at" !in Writable(MessageFields, data)
    ensures "user" !in Writable(MessageFields, data)
    ensures "created_at" !in Writable(ChatRoomFields, data) && "updated_at" !in Writable(ChatRoomFields, data)
  {
  }
}
