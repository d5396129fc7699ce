/**
 * The websocket side of the chat service: the process-wide registry of live
 * sessions per chat (`SESSIONS`), and the session actor that joins and
 * leaves it, turns inbound "message" events into a broadcast to the other
 * sessions of its chat, and hands each broadcast message to a detached save.
 * Each block that holds the registry's lock is one atomic step here.
 */
module Session {
  import opened Wrappers
  import opened Uuids
  import opened Models
  import Json

  /** A session's actor address (`Addr<ChatSession>`). */
  datatype SessionId = SessionId(id: nat)

  /** The registry's contents: chat id to the addresses of its live sessions. */
  type Rooms = map<Uuid, seq<SessionId>>

  /** The sessions registered for `chat`, none if it has no entry. */
  function RoomOf(rooms: Rooms, chat: Uuid): seq<SessionId>
  {
    if chat in rooms then rooms[chat] else []
  }

  /** `Vec::retain(|a| a != x)`: every copy of `x` goes, everything else stays, in order. */
  function Without(s: seq<SessionId>, x: SessionId): (r: seq<SessionId>)
    ensures x !in r
    ensures forall y | y != x :: multiset(r)[y] == multiset(s)[y]
    ensures forall y :: y in r <==> y in s && y != x
    ensures |r| <= |s|
  {
    if |s| == 0 then []
    else
      assert s == [s[0]] + s[1..];
      (if s[0] == x then [] else [s[0]]) + Without(s[1..], x)
  }

  /** The registry after `started`: the session appended to its chat's list. */
  function JoinRooms(rooms: Rooms, chat: Uuid, s: SessionId): Rooms
  {
    rooms[chat := RoomOf(rooms, chat) + [s]]
  }

  /** The registry after `stopping`: the session removed, and the entry too once its list is empty. */
  function LeaveRooms(rooms: Rooms, chat: Uuid, s: SessionId): Rooms
  {
    if chat in rooms then
      var rest := Without(rooms[chat], s);
      if |rest| == 0 then rooms - {chat} else rooms[chat := rest]
    else rooms
  }

  /** No chat has an entry with an empty list. */
  ghost predicate NoEmptyRoom(rooms: Rooms)
  {
    forall c | c in rooms :: |rooms[c]| > 0
  }

  class Registry {
    var rooms: Rooms

    ghost predicate Valid()
      reads this
    {
      NoEmptyRoom(rooms)
    }

    constructor ()
      ensures Valid() && rooms == map[]
    {
      rooms := map[];
    }

    /** `started`: one more copy of `s` at the end of `chat`'s list, the entry created if absent. */
    method Join(chat: Uuid, s: SessionId)
      requires Valid()
      modifies this
      ensures Valid()
      ensures rooms == JoinRooms(old(rooms), chat, s)
      ensures chat in rooms && rooms[chat] == RoomOf(old(rooms), chat) + [s]
      ensures multiset(rooms[chat])[s] == multiset(RoomOf(old(rooms), chat))[s] + 1
      ensures forall c | c != chat :: c in rooms <==> c in old(rooms)
      ensures forall c | c != chat && c in rooms :: rooms[c] == old(rooms)[c]
    {
      if chat in rooms {
        rooms := rooms[chat := rooms[chat] + [s]];
      } else {
        assert RoomOf(rooms, chat) + [s] == [s];
        rooms := rooms[chat := [s]];
      }
    }

    /**
     * `stopping`: every copy of `s` leaves `chat`'s list, whose entry is
     * deleted exactly when the list becomes empty; no entry, no change.
     */
    method Leave(chat: Uuid, s: SessionId)
      requires Valid()
      modifies this
      ensures Valid()
      ensures rooms == LeaveRooms(old(rooms), chat, s)
      ensures chat !in old(rooms) ==> rooms == old(rooms)
      ensures chat in old(rooms) ==> (chat !in rooms <==> Without(old(rooms)[chat], s) == [])
      ensures chat in rooms ==> rooms[chat] == Without(old(rooms)[chat], s)
      ensures forall c | c != chat :: c in rooms <==> c in old(rooms)
      ensures forall c | c != chat && c in rooms :: rooms[c] == old(rooms)[c]
    {
      if chat in rooms {
        var users := Without(rooms[chat], s);
        if |users| == 0 {
          rooms := rooms - {chat};
        } else {
          rooms := rooms[chat := users];
        }
      }
    }

    /**
     * The recipients `broadcast_message` picks: every session under the
     * sender's chat except the sender, in registration order.
     */
    method Recipients(chat: Uuid, sender: SessionId) returns (r: seq<SessionId>)
      ensures r == Without(RoomOf(rooms, chat), sender)
      ensures forall x :: x in r <==> chat in rooms && x in rooms[chat] && x != sender
      ensures chat !in rooms ==> r == []
    {
      r := [];
      if chat in rooms {
        var users := rooms[chat];
        var i := 0;
        while i < |users|
          invariant 0 <= i <= |users|
          invariant r == Without(users[..i], sender)
        {
          WithoutSnoc(users[..i], users[i], sender);
          assert users[..i + 1] == users[..i] + [users[i]];
          if users[i] != sender {
            r := r + [users[i]];
          }
          i := i + 1;
        }
        assert users[..i] == users;
      }
    }
  }

  lemma {:induction false} WithoutSnoc(s: seq<SessionId>, y: SessionId, x: SessionId)
    ensures Without(s + [y], x) == Without(s, x) + (if y == x then [] else [y])
  {
    if |s| == 0 {
      assert s + [y] == [y];
      assert [y][1..] == [];
    } else {
      assert (s + [y])[1..] == s[1..] + [y];
      WithoutSnoc(s[1..], y, x);
    }
  }

  /** One step a session makes on the registry. */
  datatype RegistryOp = JoinOp(chat: Uuid, s: SessionId) | LeaveOp(chat: Uuid, s: SessionId)

  function Apply(rooms: Rooms, op: RegistryOp): Rooms
  {
    match op
    case JoinOp(c, s) => JoinRooms(rooms, c, s)
    case LeaveOp(c, s) => LeaveRooms(rooms, c, s)
  }

  /** The registry after a run of joins and leaves from an empty start. */
  function Replay(ops: seq<RegistryOp>): Rooms
  {
    if |ops| == 0 then map[] else Apply(Replay(ops[..|ops| - 1]), ops[|ops| - 1])
  }

  /** Every join and leave keeps every entry non-empty. */
  lemma ApplyKeepsNoEmptyRoom(rooms: Rooms, op: RegistryOp)
    requires NoEmptyRoom(rooms)
    ensures NoEmptyRoom(Apply(rooms, op))
  {
  }

  /** From an empty registry, no run of joins and leaves leaves an empty entry behind. */
  lemma {:induction false} ReplayHasNoEmptyRoom(ops: seq<RegistryOp>)
    ensures NoEmptyRoom(Replay(ops))
  {
    if |ops| > 0 {
      ReplayHasNoEmptyRoom(ops[..|ops| - 1]);
      ApplyKeepsNoEmptyRoom(Replay(ops[..|ops| - 1]), ops[|ops| - 1]);
    }
  }

  /** The reference meaning: `s` is in `chat` when its last join or leave there was a join. */
  predicate Attached(ops: seq<RegistryOp>, chat: Uuid, s: SessionId)
  {
    if |ops| == 0 then false
    else
      var op := ops[|ops| - 1];
      if op.chat == chat && op.s == s then op.JoinOp? else Attached(ops[..|ops| - 1], chat, s)
  }

  lemma ApplyMembership(rooms: Rooms, op: RegistryOp, chat: Uuid, s: SessionId)
    ensures s in RoomOf(Apply(rooms, op), chat)
            <==> if op.chat == chat && op.s == s then op.JoinOp? else s in RoomOf(rooms, chat)
  {
  }

  /** Replaying joins and leaves agrees with the reference, session by session and chat by chat. */
  lemma {:induction false} ReplayMembership(ops: seq<RegistryOp>, chat: Uuid, s: SessionId)
    ensures s in RoomOf(Replay(ops), chat) <==> Attached(ops, chat, s)
  {
    if |ops| > 0 {
      ReplayMembership(ops[..|ops| - 1], chat, s);
      ApplyMembership(Replay(ops[..|ops| - 1]), ops[|ops| - 1], chat, s);
    }
  }

  /** After any run, a chat has an entry exactly when some session is attached to it. */
  lemma ReplayEntryIffAttached(ops: seq<RegistryOp>, chat: Uuid)
    ensures chat in Replay(ops) <==> exists s :: Attached(ops, chat, s)
  {
    ReplayHasNoEmptyRoom(ops);
    if chat in Replay(ops) {
      var s := Replay(ops)[chat][0];
      ReplayMembership(ops, chat, s);
    }
    if exists s :: Attached(ops, chat, s) {
      var s :| Attached(ops, chat, s);
      ReplayMembership(ops, chat, s);
    }
  }

  /** A `ChatMessage` handed to a peer's mailbox with `do_send`. */
  datatype Delivery = Delivery(to: SessionId, text: string)

  function Deliveries(peers: seq<SessionId>, text: string): (d: seq<Delivery>)
    ensures |d| == |peers|
    ensures forall i | 0 <= i < |peers| :: d[i] == Delivery(peers[i], text)
  {
    seq(|peers|, i requires 0 <= i < |peers| => Delivery(peers[i], text))
  }

  /** What the session hands to the actor system and to the task runtime. */
  class Runtime {
    /** Every `do_send`, in order. */
    var sent: seq<Delivery>
    /** Every save given to `tokio::spawn`, in order; the task's outcome is only logged. */
    var submitted: seq<CreateMessageDto>

    constructor ()
      ensures sent == [] && submitted == []
    {
      sent := [];
      submitted := [];
    }
  }

  /** The envelope sent to peers: `{"event":"message","data":{chat_uid,user_uid,content}}`. */
  function Envelope(chatUid: Uuid, userUid: Uuid, content: string): (v: Json.Value)
    ensures Json.Get(v, "event") == Some(Json.Str("message"))
    ensures var data := Json.Get(v, "data");
            && data.Some?
            && Json.Get(data.value, "chat_uid") == Some(Json.Str(ToString(chatUid)))
            && Json.Get(data.value, "user_uid") == Some(Json.Str(ToString(userUid)))
            && Json.Get(data.value, "content").Some?
            && Json.AsStr(Json.Get(data.value, "content").value) == Some(content)
  {
    Json.Object(map[
      "event" := Json.Str("message"),
      "data" := Json.Object(map[
        "chat_uid" := Json.Str(ToString(chatUid)),
        "user_uid" := Json.Str(ToString(userUid)),
        "content" := Json.Str(content)])])
  }

  /** The inbound frame shape `WebSocketMessage { event, data }`. */
  datatype WebSocketMessage = WebSocketMessage(event: string, data: Json.Value)

  /**
   * The content `process_ws_message` broadcasts for a frame that `serde_json`
   * parsed to `msg` (None: the parse failed), or None when it does nothing.
   */
  function ContentToBroadcast(msg: Option<WebSocketMessage>): (r: Option<string>)
    ensures r.Some? <==> && msg.Some? && msg.value.event == "message"
                         && msg.value.data.Object? && "content" in msg.value.data.fields
                         && msg.value.data.fields["content"].Str?
    ensures r.Some? ==> r.value == msg.value.data.fields["content"].s
  {
    match msg
    case None => None
    case Some(m) =>
      if m.event == "message" then
        match Json.Get(m.data, "content")
        case Some(c) => Json.AsStr(c)
        case None => None
      else None
  }

  /** Any string content is broadcast, the empty one included. */
  lemma EmptyContentIsBroadcast()
    ensures ContentToBroadcast(Some(WebSocketMessage("message", Json.Object(map["content" := Json.Str("")]))))
            == Some("")
  {
  }

  datatype CloseReason = CloseReason(code: nat, description: Option<string>)

  /** What the stream handler receives: a frame, or a protocol error. */
  datatype Frame =
    | Text(text: string)
    | Binary(bytes: seq<int>)
    | Continuation
    | Ping(payload: seq<int>)
    | Pong(payload: seq<int>)
    | Close(reason: Option<CloseReason>)
    | Nop
    | ProtocolError

  class ChatSession {
    const chatUid: Uuid
    const userUid: Uuid
    const addr: SessionId
    const registry: Registry
    const runtime: Runtime
    /** Text frames written to this session's socket (`ctx.text`). */
    var socket: seq<string>
    /** The close frame sent (`ctx.close`), once the session was asked to close. */
    var closedWith: Option<Option<CloseReason>>
    var stopped: bool

    constructor (chatUid: Uuid, userUid: Uuid, addr: SessionId, registry: Registry, runtime: Runtime)
      ensures this.chatUid == chatUid && this.userUid == userUid && this.addr == addr
      ensures this.registry == registry && this.runtime == runtime
      ensures socket == [] && closedWith == None && !stopped
    {
      this.chatUid := chatUid;
      this.userUid := userUid;
      this.addr := addr;
      this.registry := registry;
      this.runtime := runtime;
      socket := [];
      closedWith := None;
      stopped := false;
    }

    /** `started`: register in the chat's room. */
    method Started()
      requires registry.Valid()
      modifies registry
      ensures registry.Valid()
      ensures registry.rooms == JoinRooms(old(registry.rooms), chatUid, addr)
    {
      registry.Join(chatUid, addr);
    }

    /** `stopping`: deregister from the chat's room. */
    method Stopping()
      requires registry.Valid()
      modifies registry
      ensures registry.Valid()
      ensures registry.rooms == LeaveRooms(old(registry.rooms), chatUid, addr)
    {
      registry.Leave(chatUid, addr);
    }

    /** `save_to_message`: submit the detached save of this message. */
    method SaveToMessage(content: string)
      modifies runtime
      ensures runtime.submitted == old(runtime.submitted) + [CreateMessageDto(chatUid, userUid, content)]
      ensures runtime.sent == old(runtime.sent)
    {
      runtime.submitted := runtime.submitted + [CreateMessageDto(chatUid, userUid, content)];
    }

    /**
     * `broadcast_message`: one save submitted, then the envelope sent to every
     * other session of the chat; the save's outcome plays no part.
     * `serialize` stands for `Value::to_string`.
     */
    method BroadcastMessage(content: string, serialize: Json.Value -> string)
      modifies runtime
      ensures runtime.submitted == old(runtime.submitted) + [CreateMessageDto(chatUid, userUid, content)]
      ensures runtime.sent == old(runtime.sent)
                              + Deliveries(Without(RoomOf(registry.rooms, chatUid), addr),
                                           serialize(Envelope(chatUid, userUid, content)))
      ensures forall d | d in runtime.sent[|old(runtime.sent)|..] ::
                d.to != addr && d.to in RoomOf(registry.rooms, chatUid)
                && d.text == serialize(Envelope(chatUid, userUid, content))
    {
      SaveToMessage(content);
      var response := Envelope(chatUid, userUid, content);
      var text := serialize(response);
      var peers := registry.Recipients(chatUid, addr);
      runtime.sent := runtime.sent + Deliveries(peers, text);
      assert runtime.sent[|old(runtime.sent)|..] == Deliveries(peers, text);
    }

    /** `process_ws_message`; `parse` stands for `serde_json::from_str`. */
    method ProcessWsMessage(text: string, parse: string -> Option<WebSocketMessage>, serialize: Json.Value -> string)
      modifies runtime
      ensures ContentToBroadcast(parse(text)).None? ==>
                runtime.sent == old(runtime.sent) && runtime.submitted == old(runtime.submitted)
      ensures ContentToBroadcast(parse(text)).Some? ==>
                var content := ContentToBroadcast(parse(text)).value;
                && runtime.submitted == old(runtime.submitted) + [CreateMessageDto(chatUid, userUid, content)]
                && runtime.sent == old(runtime.sent)
                                   + Deliveries(Without(RoomOf(registry.rooms, chatUid), addr),
                                                serialize(Envelope(chatUid, userUid, content)))
    {
      var msg := parse(text);
      if msg.None? {
        return;
      }
      if msg.value.event == "message" {
        var content := Json.Get(msg.value.data, "content");
        if content.Some? && Json.AsStr(content.value).Some? {
          BroadcastMessage(Json.AsStr(content.value).value, serialize);
        }
      }
    }

    /** `StreamHandler::handle`: text is processed, Close stops the session, the rest is ignored. */
    method Handle(frame: Frame, parse: string -> Option<WebSocketMessage>, serialize: Json.Value -> string)
      requires registry.Valid()
      modifies this, registry, runtime
      ensures registry.Valid()
      ensures socket == old(socket)
      ensures frame.Text? ==>
                registry.rooms == old(registry.rooms) && closedWith == old(closedWith) && stopped == old(stopped)
                && var content := ContentToBroadcast(parse(frame.text));
                   if content.None? then
                     runtime.sent == old(runtime.sent) && runtime.submitted == old(runtime.submitted)
                   else
                     && runtime.submitted == old(runtime.submitted) + [CreateMessageDto(chatUid, userUid, content.value)]
                     && runtime.sent == old(runtime.sent)
                                        + Deliveries(Without(RoomOf(registry.rooms, chatUid), addr),
                                                     serialize(Envelope(chatUid, userUid, content.value)))
      ensures frame.Close? ==>
                closedWith == Some(frame.reason) && stopped
                && registry.rooms == LeaveRooms(old(registry.rooms), chatUid, addr)
                && runtime.sent == old(runtime.sent) && runtime.submitted == old(runtime.submitted)
      ensures !frame.Text? && !frame.Close? ==>
                registry.rooms == old(registry.rooms) && closedWith == old(closedWith) && stopped == old(stopped)
                && runtime.sent == old(runtime.sent) && runtime.submitted == old(runtime.submitted)
    {
      match frame {
        case Text(text) =>
          ProcessWsMessage(text, parse, serialize);
        case Close(reason) =>
          closedWith := Some(reason);
          stopped := true;
          Stopping();
        case _ =>
      }
    }

    /** `Handler<ChatMessage>::handle`: a peer's message is written to this socket unchanged. */
    method HandleChatMessage(text: string)
      modifies this
      ensures socket == old(socket) + [text]
      ensures closedWith == old(closedWith) && stopped == old(stopped)
    {
      socket := socket + [text];
    }
  }
}
