/** The envelopes of the actor pipeline, the frames that enter it and the envelopes each handler sends. */
module Messages {

  datatype Option<+T> = None | Some(value: T)

  datatype ActorType = Session | Chat | Message | Storage

  datatype SendEvent = SendEvent(
    sessionId: string, chatId: string, senderId: string, recipientId: string, text: string)

  /** The two JSON documents the chat actor builds, by their "type" field. */
  datatype Frame =
    | Delivered(chatId: string, text: string)
    | Incoming(chatId: string, text: string, from: string)

  datatype Payload =
    | Auth(sessionId: string, userId: string)
    | SendMessage(event: SendEvent)
    | Typing(chatId: string, userId: string)
    | Read(chatId: string, userId: string, messageId: string)
    | Persist(chatId: string, senderId: string, content: string)
    | Outgoing(sessionId: string, frame: Frame)

  datatype Envelope = Envelope(destination: ActorType, payload: Payload)

  const ALL_ACTORS: set<ActorType> := {Session, Chat, Message, Storage}

  // ---------------------------------------------------------------- dispatcher

  /** A text frame after JSON decoding; what is neither an object nor a string does not matter further, and
      text that does not parse is `Other` too. */
  datatype Inbound = Object(fields: map<string, Inbound>) | Str(s: string) | Other

  /** What dispatching a frame amounts to. A member of the wrong JSON type makes the JSON library throw, and
      nothing catches it in a network thread. */
  datatype Reading = Nothing | Event(env: Envelope) | Malformed

  /** The member's value, the empty string if it is missing; None if it is not a string. */
  function Value(fields: map<string, Inbound>, key: string): Option<string> {
    if key !in fields then Some("")
    else if fields[key].Str? then Some(fields[key].s)
    else None
  }

  /** The "text" of the "payload" object; None if either has the wrong type. */
  function TextOf(fields: map<string, Inbound>): Option<string> {
    if "payload" !in fields then Some("")
    else if fields["payload"].Object? then Value(fields["payload"].fields, "text")
    else None
  }

  /** The envelope a decoded frame becomes, if it becomes one. */
  function Route(sessionId: string, frame: Inbound): Reading {
    if !frame.Object? then Nothing
    else
      var f := frame.fields;
      var kind := Value(f, "type");
      if kind.None? then Malformed
      else if kind.value == "auth" then
        var user := Value(f, "user_id");
        if user.None? then Malformed else Event(Envelope(Session, Auth(sessionId, user.value)))
      else if kind.value == "send_message" then
        var chat, sender, recipient, text :=
          Value(f, "chat_id"), Value(f, "sender_id"), Value(f, "recipient_session_id"), TextOf(f);
        if chat.None? || sender.None? || recipient.None? || text.None? then Malformed
        else Event(Envelope(Message, SendMessage(SendEvent(sessionId, chat.value, sender.value, recipient.value, text.value))))
      else if kind.value == "typing" then
        var chat, user := Value(f, "chat_id"), Value(f, "user_id");
        if chat.None? || user.None? then Malformed else Event(Envelope(Message, Typing(chat.value, user.value)))
      else if kind.value == "message_read" then
        var chat, user, message := Value(f, "chat_id"), Value(f, "user_id"), Value(f, "message_id");
        if chat.None? || user.None? || message.None? then Malformed
        else Event(Envelope(Message, Read(chat.value, user.value, message.value)))
      else Nothing
  }

  // What clients send, one document per event type.

  function AuthFrame(userId: string): Inbound {
    Object(map["type" := Str("auth"), "user_id" := Str(userId)])
  }

  function SendFrame(chatId: string, senderId: string, recipientId: string, text: string): Inbound {
    Object(map["type" := Str("send_message"), "chat_id" := Str(chatId), "sender_id" := Str(senderId),
               "recipient_session_id" := Str(recipientId), "payload" := Object(map["text" := Str(text)])])
  }

  function TypingFrame(chatId: string, userId: string): Inbound {
    Object(map["type" := Str("typing"), "chat_id" := Str(chatId), "user_id" := Str(userId)])
  }

  function ReadFrame(chatId: string, userId: string, messageId: string): Inbound {
    Object(map["type" := Str("message_read"), "chat_id" := Str(chatId), "user_id" := Str(userId),
               "message_id" := Str(messageId)])
  }

  /** Each document is read back field by field, under the id of the session it came from. */
  lemma RouteReadsBack(sessionId: string, a: string, b: string, c: string, d: string)
    ensures Route(sessionId, AuthFrame(a)) == Event(Envelope(Session, Auth(sessionId, a)))
    ensures Route(sessionId, SendFrame(a, b, c, d)) == Event(Envelope(Message, SendMessage(SendEvent(sessionId, a, b, c, d))))
    ensures Route(sessionId, TypingFrame(a, b)) == Event(Envelope(Message, Typing(a, b)))
    ensures Route(sessionId, ReadFrame(a, b, c)) == Event(Envelope(Message, Read(a, b, c)))
  {
    assert "auth" != "send_message" && "typing"[0] != "auth"[0] && "message_read"[0] != "send_message"[0];
  }

  /** The document a client would have sent with the members this frame has: what is missing is "", and
      members that are not looked at are gone. None for a frame that no event type looks at, or that has a
      member of the wrong type where a string or an object is looked for. */
  function Canonical(frame: Inbound): Option<Inbound> {
    if !frame.Object? || Value(frame.fields, "type").None? then None
    else
      var f := frame.fields;
      var kind, user, chat, sender := Value(f, "type").value, Value(f, "user_id"), Value(f, "chat_id"), Value(f, "sender_id");
      var recipient, message, text := Value(f, "recipient_session_id"), Value(f, "message_id"), TextOf(f);
      if kind == "auth" && user.Some? then Some(AuthFrame(user.value))
      else if kind == "send_message" && chat.Some? && sender.Some? && recipient.Some? && text.Some? then
        Some(SendFrame(chat.value, sender.value, recipient.value, text.value))
      else if kind == "typing" && chat.Some? && user.Some? then Some(TypingFrame(chat.value, user.value))
      else if kind == "message_read" && chat.Some? && user.Some? && message.Some? then
        Some(ReadFrame(chat.value, user.value, message.value))
      else None
  }

  /** A frame becomes an envelope exactly if it has such a document, and then the envelope of that document:
      its own type and members and nothing else. It is dropped exactly if it is not an object or its type is
      a string, or missing, that names none of the four events. */
  lemma RouteExactly(sessionId: string, frame: Inbound)
    ensures Route(sessionId, frame).Event? <==> Canonical(frame).Some?
    ensures Canonical(frame).Some? ==> Route(sessionId, frame) == Route(sessionId, Canonical(frame).value)
    ensures Route(sessionId, frame) == Nothing <==>
      !frame.Object? || (Value(frame.fields, "type").Some? && Value(frame.fields, "type").value !in KINDS)
  {
    hide AuthFrame, SendFrame, TypingFrame, ReadFrame;
    if frame.Object? && Value(frame.fields, "type").Some? {
      var f := frame.fields;
      hide Value, TextOf;
      var user, chat, sender := Value(f, "user_id"), Value(f, "chat_id"), Value(f, "sender_id");
      var recipient, message, text := Value(f, "recipient_session_id"), Value(f, "message_id"), TextOf(f);
      RouteReadsBack(sessionId, Or(user), "", "", "");
      RouteReadsBack(sessionId, Or(chat), Or(sender), Or(recipient), Or(text));
      RouteReadsBack(sessionId, Or(chat), Or(user), Or(message), "");
    }
  }

  /** A missing member counts as the empty string: writing it out changes nothing. */
  lemma MissingIsEmpty(sessionId: string, f: map<string, Inbound>, key: string)
    requires key !in f && key != "payload"
    ensures Route(sessionId, Object(f)) == Route(sessionId, Object(f[key := Str("")]))
  {
    var g := f[key := Str("")];
    SameMembers(sessionId, f, g);
  }

  /** So does a missing payload, or one without a text. */
  lemma MissingTextIsEmpty(sessionId: string, f: map<string, Inbound>)
    ensures "payload" !in f ==>
      Route(sessionId, Object(f)) == Route(sessionId, Object(f["payload" := Object(map["text" := Str("")])]))
    ensures "payload" in f && f["payload"].Object? && "text" !in f["payload"].fields ==>
      Route(sessionId, Object(f)) == Route(sessionId, Object(f["payload" := Object(f["payload"].fields["text" := Str("")])]))
  {
    if "payload" !in f {
      SameMembers(sessionId, f, f["payload" := Object(map["text" := Str("")])]);
    } else if f["payload"].Object? && "text" !in f["payload"].fields {
      SameMembers(sessionId, f, f["payload" := Object(f["payload"].fields["text" := Str("")])]);
    }
  }

  lemma SameMembers(sessionId: string, f: map<string, Inbound>, g: map<string, Inbound>)
    requires TextOf(f) == TextOf(g) && forall key | key != "payload" :: Value(f, key) == Value(g, key)
    ensures Route(sessionId, Object(f)) == Route(sessionId, Object(g))
  {
    hide Value, TextOf;
    assert "type"[0] != "payload"[0] && "user_id"[0] != "payload"[0] && "chat_id"[0] != "payload"[0] && "sender_id"[0] != "payload"[0];
    assert "recipient_session_id"[0] != "payload"[0] && "message_id"[0] != "payload"[0];
  }

  /** The members, all of them strings, that are looked at for each type. */
  function LookedAt(kind: string): set<string> {
    if kind == "auth" then {"user_id"}
    else if kind == "send_message" then {"chat_id", "sender_id", "recipient_session_id"}
    else if kind == "typing" then {"chat_id", "user_id"}
    else if kind == "message_read" then {"chat_id", "user_id", "message_id"}
    else {}
  }

  predicate NoString(f: map<string, Inbound>, key: string) {
    key in f && !f[key].Str?
  }

  predicate BadText(f: map<string, Inbound>) {
    "payload" in f && (!f["payload"].Object? || NoString(f["payload"].fields, "text"))
  }

  /** Dispatching throws exactly if the type is there and no string, or a member that is looked at for that type
      is, or it is a send_message whose payload is no object or has a text that is no string. */
  lemma MalformedExactly(sessionId: string, frame: Inbound)
    ensures Route(sessionId, frame).Malformed? <==>
      frame.Object? && var f := frame.fields;
        || NoString(f, "type")
        || ("type" in f
            && ((exists key :: key in LookedAt(f["type"].s) && NoString(f, key)) || (f["type"].s == "send_message" && BadText(f))))
  {
    if frame.Object? {
      var f := frame.fields;
      if "type" in f && f["type"].Str? {
        var kind := f["type"].s;
        assert "user_id" in LookedAt("auth");
        assert "chat_id" in LookedAt("send_message") && "sender_id" in LookedAt("send_message") && "recipient_session_id" in LookedAt("send_message");
        assert "chat_id" in LookedAt("typing") && "user_id" in LookedAt("typing");
        assert "chat_id" in LookedAt("message_read") && "user_id" in LookedAt("message_read") && "message_id" in LookedAt("message_read");
        assert TextOf(f).None? <==> BadText(f);
        assert forall key :: Value(f, key).None? <==> NoString(f, key);
        hide TextOf, BadText, NoString;
      }
    }
  }

  const KINDS: set<string> := {"auth", "send_message", "typing", "message_read"}

  function Or(s: Option<string>): string {
    if s.Some? then s.value else ""
  }

  // ---------------------------------------------------------------- handlers

  function PersistOf(e: SendEvent): Envelope {
    Envelope(Storage, Persist(e.chatId, e.senderId, e.text))
  }

  function EchoOf(e: SendEvent): Envelope {
    Envelope(Session, Outgoing(e.sessionId, Delivered(e.chatId, e.text)))
  }

  function IncomingOf(e: SendEvent): Envelope {
    Envelope(Session, Outgoing(e.recipientId, Incoming(e.chatId, e.text, e.senderId)))
  }

  /** The envelopes the handler of actor `a` sends for payload `p`, in program order. */
  function Sends(a: ActorType, p: Payload): seq<Envelope> {
    if !p.SendMessage? then []
    else match a
      case Message => [Envelope(Chat, p)]
      case Chat =>
        [PersistOf(p.event), EchoOf(p.event)] + (if p.event.recipientId != "" then [IncomingOf(p.event)] else [])
      case _ => []
  }

  /** The payload kinds each actor is meant to receive. */
  predicate Meant(a: ActorType, p: Payload) {
    match a
    case Session => p.Auth? || p.Outgoing?
    case Chat => p.SendMessage?
    case Message => p.SendMessage? || p.Typing? || p.Read?
    case Storage => p.Persist?
  }

  /** Depth of an actor in the pipeline: handlers only send downwards. */
  function Rank(a: ActorType): nat {
    match a
    case Message => 2
    case Chat => 1
    case _ => 0
  }
}
