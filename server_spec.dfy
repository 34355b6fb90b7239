/**
 * The socket server of `server/index.js` as a transition system over an
 * explicit state: the presence registry (`onlineUsers`), the per-user rooms
 * that sockets join, the message store and the append-only outbox of
 * emitted events. Every socket handler is one atomic step; what the store
 * or the transport does between the `await`s of a handler is not modelled.
 */
module ServerSpec {
  import opened Domain

  /** An authenticated connection: its transport id and the user it belongs to. */
  datatype Socket = Socket(id: SocketId, userId: UserId)

  /** `io.emit(...)` addresses everyone; `io.to(u).emit(...)` addresses room `u`. */
  datatype Target = Everyone | Room(user: UserId)

  datatype EventName =
    | UserOnline      // "user:online"
    | UserOffline     // "user:offline"
    | MessageNew      // "message:new"
    | MessageStatus   // "message:status"
    | MessageRead     // "message:read"
    | TypingStart     // "typing:start"
    | TypingStop      // "typing:stop"

  datatype Payload =
    | Presence(userId: UserId)              // { userId }
    | Msg(msg: Message)                     // a full message document
    | StatusChange(id: nat, status: Status) // { id, status }
    | TypingFrom(from: UserId)              // { from }

  /** One emitted event, in the order the server emitted it. */
  datatype Emission = Emission(target: Target, name: EventName, payload: Payload)

  datatype State = State(
    onlineUsers: map<UserId, SocketId>,
    rooms: map<UserId, set<SocketId>>,
    store: seq<Message>,
    outbox: seq<Emission>)

  /** The server just after start-up: nobody online, no messages, nothing emitted. */
  const Initial: State := State(map[], map[], [], [])

  /** The sockets that joined room `u`. */
  function RoomOf(rooms: map<UserId, set<SocketId>>, u: UserId): set<SocketId>
  {
    if u in rooms then rooms[u] else {}
  }

  /**
   * Who may receive an emission: presence goes to everyone; a message goes
   * only to its sender's or receiver's room and agrees with the stored record
   * on everything but the status; a status notice goes to the sender of the
   * message it names.
   */
  predicate Addressed(e: Emission, store: seq<Message>)
  {
    match e.payload
    case Presence(_) => e.target == Everyone
    case Msg(m) =>
      && m.id < |store| && SameExceptStatus(m, store[m.id])
      && (e.target == Room(m.sender) || e.target == Room(m.receiver))
    case StatusChange(id, _) => id < |store| && e.target == Room(store[id].sender)
    case TypingFrom(_) => e.target.Room?
  }

  /**
   * The state invariant: ids are store positions, every registered socket is
   * in its user's room, and every emission so far was addressed as above.
   */
  ghost predicate Valid(st: State)
  {
    && (forall i :: 0 <= i < |st.store| ==> st.store[i].id == i)
    && (forall u :: u in st.onlineUsers ==> st.onlineUsers[u] in RoomOf(st.rooms, u))
    && (forall k :: 0 <= k < |st.outbox| ==> Addressed(st.outbox[k], st.store))
  }

  // ---------------------------------------------------------------------
  // One function per socket handler
  // ---------------------------------------------------------------------

  /** "connection": register the socket, announce the user, join room `userId`. */
  function Connect(st: State, s: Socket): State
  {
    st.(onlineUsers := st.onlineUsers[s.userId := s.id],
        rooms := st.rooms[s.userId := RoomOf(st.rooms, s.userId) + {s.id}],
        outbox := st.outbox + [Emission(Everyone, UserOnline, Presence(s.userId))])
  }

  /**
   * "message:send". `createFails` and `updateFails` say whether
   * `Message.create` and `Message.findByIdAndUpdate` throw; a throw ends
   * the handler in its catch, which only logs.
   */
  function Send(st: State, s: Socket, receiver: UserId, text: string, now: int,
                createFails: bool, updateFails: bool): State
  {
    if createFails then st
    else
      var msg := Message(|st.store|, s.userId, receiver, text, Sent, now);
      var echo := Emission(Room(s.userId), MessageNew, Msg(msg));
      if receiver !in st.onlineUsers then
        st.(store := st.store + [msg], outbox := st.outbox + [echo])
      else
        var push := Emission(Room(receiver), MessageNew, Msg(msg.(status := Delivered)));
        if updateFails then
          st.(store := st.store + [msg], outbox := st.outbox + [echo, push])
        else
          st.(store := st.store + [msg.(status := Delivered)],
              outbox := st.outbox + [echo, push, Emission(Room(s.userId), MessageStatus, StatusChange(msg.id, Delivered))])
  }

  /** "typing:start" (`name == TypingStart`) and "typing:stop" (`name == TypingStop`). */
  function RelayTyping(st: State, s: Socket, receiver: UserId, name: EventName): State
  {
    if receiver in st.onlineUsers then
      st.(outbox := st.outbox + [Emission(Room(receiver), name, TypingFrom(s.userId))])
    else st
  }

  /**
   * "message:read". `msgId` is whatever the client sent; an id that names no
   * stored message, or a store failure in `findById`/`save`, ends the handler
   * with nothing changed. The requesting socket is not consulted.
   */
  function MarkRead(st: State, msgId: int, storeFails: bool): State
  {
    if storeFails || !(0 <= msgId < |st.store|) then st
    else
      var msg := st.store[msgId].(status := Read);
      st.(store := st.store[msgId := msg],
          outbox := st.outbox + [Emission(Room(msg.sender), MessageRead, Msg(msg)),
                                 Emission(Room(msg.receiver), MessageRead, Msg(msg))])
  }

  /**
   * "disconnect": unregister the user and announce it, whatever socket the
   * registry holds for it. The transport takes the socket out of its room.
   */
  function Disconnect(st: State, s: Socket): State
  {
    st.(onlineUsers := st.onlineUsers - {s.userId},
        rooms := st.rooms[s.userId := RoomOf(st.rooms, s.userId) - {s.id}],
        outbox := st.outbox + [Emission(Everyone, UserOffline, Presence(s.userId))])
  }

  /** One inbound event, with the outcome of its store calls. */
  datatype Event =
    | Connected(socket: Socket)
    | SendMessage(socket: Socket, receiver: UserId, text: string, now: int, createFails: bool, updateFails: bool)
    | StartTyping(socket: Socket, receiver: UserId)
    | StopTyping(socket: Socket, receiver: UserId)
    | ReadMessage(socket: Socket, msgId: int, storeFails: bool)
    | Disconnected(socket: Socket)

  function Step(st: State, e: Event): State
  {
    match e
    case Connected(s) => Connect(st, s)
    case SendMessage(s, receiver, text, now, cf, uf) => Send(st, s, receiver, text, now, cf, uf)
    case StartTyping(s, receiver) => RelayTyping(st, s, receiver, TypingStart)
    case StopTyping(s, receiver) => RelayTyping(st, s, receiver, TypingStop)
    case ReadMessage(_, msgId, f) => MarkRead(st, msgId, f)
    case Disconnected(s) => Disconnect(st, s)
  }

  /** The handlers run one after another, each to completion. */
  function Run(st: State, es: seq<Event>): State
    decreases |es|
  {
    if es == [] then st else Run(Step(st, es[0]), es[1..])
  }

  // ---------------------------------------------------------------------
  // Presence
  // ---------------------------------------------------------------------

  lemma ConnectMarksOnline(st: State, s: Socket)
    ensures var r := Connect(st, s);
      && s.userId in r.onlineUsers && r.onlineUsers[s.userId] == s.id
      && s.id in RoomOf(r.rooms, s.userId)
      && r.store == st.store
      && r.outbox == st.outbox + [Emission(Everyone, UserOnline, Presence(s.userId))]
    ensures forall u :: u != s.userId ==>
      && (u in Connect(st, s).onlineUsers <==> u in st.onlineUsers)
      && (u in st.onlineUsers ==> Connect(st, s).onlineUsers[u] == st.onlineUsers[u])
      && RoomOf(Connect(st, s).rooms, u) == RoomOf(st.rooms, u)
  {
  }

  /** The entry goes and the broadcast happens even when the user was not registered. */
  lemma DisconnectMarksOffline(st: State, s: Socket)
    ensures var r := Disconnect(st, s);
      && s.userId !in r.onlineUsers
      && s.id !in RoomOf(r.rooms, s.userId)
      && r.store == st.store
      && r.outbox == st.outbox + [Emission(Everyone, UserOffline, Presence(s.userId))]
    ensures forall u :: u != s.userId ==>
      && (u in Disconnect(st, s).onlineUsers <==> u in st.onlineUsers)
      && (u in st.onlineUsers ==> Disconnect(st, s).onlineUsers[u] == st.onlineUsers[u])
      && RoomOf(Disconnect(st, s).rooms, u) == RoomOf(st.rooms, u)
  {
  }

  /**
   * A second connection of the same user takes over the registry entry, but
   * the first socket stays in the user's room and keeps receiving whatever
   * is addressed to that user.
   */
  lemma SupersededSocketStillInRoom(st: State, a: Socket, b: Socket)
    requires a.userId == b.userId
    ensures var r := Connect(Connect(st, a), b);
      && r.onlineUsers[a.userId] == b.id
      && a.id in RoomOf(r.rooms, a.userId)
      && b.id in RoomOf(r.rooms, a.userId)
  {
  }

  /**
   * When the superseded socket disconnects, the user is reported offline and
   * dropped from the registry although its newer socket is still in the
   * room; from then on typing signals to that user are dropped.
   */
  lemma StaleDisconnectReportsOffline(st: State, a: Socket, b: Socket, other: Socket, name: EventName)
    requires a.userId == b.userId && a.id != b.id
    ensures var r := Disconnect(Connect(Connect(st, a), b), a);
      && a.userId !in r.onlineUsers
      && b.id in RoomOf(r.rooms, a.userId)
      && r.outbox[|r.outbox| - 1] == Emission(Everyone, UserOffline, Presence(a.userId))
      && RelayTyping(r, other, a.userId, name) == r
  {
  }

  // ---------------------------------------------------------------------
  // message:send
  // ---------------------------------------------------------------------

  /**
   * A send stores exactly one new message from the socket's user with the
   * given receiver, text and time, leaves older messages and emissions as
   * they were and emits the sender's echo first, at status sent. A failed
   * create changes nothing.
   */
  lemma SendCreatesOneMessage(st: State, s: Socket, receiver: UserId, text: string, now: int,
                              createFails: bool, updateFails: bool)
    ensures createFails ==> Send(st, s, receiver, text, now, createFails, updateFails) == st
    ensures var r := Send(st, s, receiver, text, now, createFails, updateFails);
      !createFails ==>
        && |r.store| == |st.store| + 1 && r.store[..|st.store|] == st.store
        && r.store[|st.store|].id == |st.store|
        && r.store[|st.store|].sender == s.userId
        && r.store[|st.store|].receiver == receiver
        && r.store[|st.store|].text == text
        && r.store[|st.store|].createdAt == now
        && |r.outbox| > |st.outbox| && r.outbox[..|st.outbox|] == st.outbox
        && r.outbox[|st.outbox|] == Emission(Room(s.userId), MessageNew, Msg(r.store[|st.store|].(status := Sent)))
        && r.onlineUsers == st.onlineUsers && r.rooms == st.rooms
  {
  }

  /** The text is stored as given, the empty text included. */
  lemma SendAcceptsEmptyText(st: State, s: Socket, receiver: UserId, now: int)
    ensures var r := Send(st, s, receiver, "", now, false, false);
      |r.store| == |st.store| + 1 && r.store[|st.store|].text == "" && r.store[|st.store|].sender == s.userId
  {
  }

  /**
   * An offline receiver gets nothing: only the echo is emitted, no status
   * notice, and the stored status stays sent.
   */
  lemma SendToOfflineReceiver(st: State, s: Socket, receiver: UserId, text: string, now: int, updateFails: bool)
    requires receiver !in st.onlineUsers
    ensures var r := Send(st, s, receiver, text, now, false, updateFails);
      && |r.store| == |st.store| + 1
      && r.store[|st.store|].status == Sent
      && |r.outbox| == |st.outbox| + 1
      && r.outbox[|st.outbox|].name == MessageNew
      && (receiver != s.userId ==> r.outbox[|st.outbox|].target != Room(receiver))
  {
  }

  /**
   * An online receiver: the echo (status sent) to the sender's room, then
   * the same message with status delivered to the receiver's room, then,
   * once the store accepted the update, the stored status is delivered and
   * the sender gets the status notice. If the update throws, the store keeps
   * sent and no notice follows.
   */
  lemma SendToOnlineReceiver(st: State, s: Socket, receiver: UserId, text: string, now: int, updateFails: bool)
    requires receiver in st.onlineUsers
    ensures var r := Send(st, s, receiver, text, now, false, updateFails);
      var n := |st.outbox|;
      && |r.store| == |st.store| + 1
      && |r.outbox| == n + (if updateFails then 2 else 3)
      && r.outbox[n].target == Room(s.userId) && r.outbox[n].name == MessageNew
      && r.outbox[n].payload.Msg? && r.outbox[n].payload.msg.status == Sent
      && r.outbox[n + 1] == Emission(Room(receiver), MessageNew, Msg(r.outbox[n].payload.msg.(status := Delivered)))
      && (updateFails ==> r.store[|st.store|].status == Sent)
      && (!updateFails ==>
            && r.store[|st.store|].status == Delivered
            && r.outbox[n + 2] == Emission(Room(s.userId), MessageStatus, StatusChange(|st.store|, Delivered)))
  {
  }

  // ---------------------------------------------------------------------
  // typing:start / typing:stop
  // ---------------------------------------------------------------------

  /** Relayed to the receiver's room exactly when the receiver is registered; no state changes. */
  lemma TypingRelayedIffOnline(st: State, s: Socket, receiver: UserId, name: EventName)
    ensures var r := RelayTyping(st, s, receiver, name);
      && r.onlineUsers == st.onlineUsers && r.rooms == st.rooms && r.store == st.store
      && (receiver in st.onlineUsers ==> r.outbox == st.outbox + [Emission(Room(receiver), name, TypingFrom(s.userId))])
      && (receiver !in st.onlineUsers ==> r.outbox == st.outbox)
  {
  }

  // ---------------------------------------------------------------------
  // message:read
  // ---------------------------------------------------------------------

  lemma ReadUnknownIsNoOp(st: State, msgId: int, storeFails: bool)
    requires storeFails || !(0 <= msgId < |st.store|)
    ensures MarkRead(st, msgId, storeFails) == st
  {
  }

  /** The message becomes read, nothing else changes in the store, and both parties get it. */
  lemma ReadMarksAndNotifiesBoth(st: State, msgId: nat)
    requires msgId < |st.store|
    ensures var r := MarkRead(st, msgId, false);
      && |r.store| == |st.store|
      && r.store[msgId].status == Read && SameExceptStatus(st.store[msgId], r.store[msgId])
      && (forall i :: 0 <= i < |st.store| && i != msgId ==> r.store[i] == st.store[i])
      && r.onlineUsers == st.onlineUsers && r.rooms == st.rooms
      && r.outbox == st.outbox + [Emission(Room(st.store[msgId].sender), MessageRead, Msg(r.store[msgId])),
                                  Emission(Room(st.store[msgId].receiver), MessageRead, Msg(r.store[msgId]))]
  {
  }

  /** Marking twice leaves the store as marking once and repeats the same two emissions. */
  lemma ReadIsIdempotent(st: State, msgId: int)
    ensures var r1 := MarkRead(st, msgId, false);
      var r2 := MarkRead(r1, msgId, false);
      && r2.store == r1.store && r2.onlineUsers == r1.onlineUsers && r2.rooms == r1.rooms
      && r1.outbox <= r2.outbox
      && r2.outbox[|r1.outbox|..] == r1.outbox[|st.outbox|..]
  {
  }

  /** Who asks does not matter. */
  lemma ReadIgnoresRequester(st: State, a: Socket, b: Socket, msgId: int, storeFails: bool)
    ensures Step(st, ReadMessage(a, msgId, storeFails)) == Step(st, ReadMessage(b, msgId, storeFails))
  {
  }

  // ---------------------------------------------------------------------
  // Status only moves forward; the invariant holds along every run
  // ---------------------------------------------------------------------

  /** The store only grows, each stored message only advances its status, the outbox only grows. */
  ghost predicate Progress(st: State, r: State)
  {
    && |st.store| <= |r.store|
    && (forall i :: 0 <= i < |st.store| ==> Advanced(st.store[i], r.store[i]))
    && st.outbox <= r.outbox
  }

  lemma ProgressTransitive(a: State, b: State, c: State)
    requires Progress(a, b) && Progress(b, c)
    ensures Progress(a, c)
  {
    forall i | 0 <= i < |a.store|
      ensures Advanced(a.store[i], c.store[i])
    {
      var x, y, z := a.store[i], b.store[i], c.store[i];
      assert x.(status := z.status) == y.(status := z.status);
    }
  }

  lemma StepProgress(st: State, e: Event)
    ensures Progress(st, Step(st, e))
  {
  }

  /**
   * Over any sequence of handlers, every stored message only moves forward
   * along sent -> delivered -> read and nothing emitted is ever withdrawn.
   */
  lemma {:induction false} RunProgress(st: State, es: seq<Event>)
    ensures Progress(st, Run(st, es))
    decreases |es|
  {
    if es != [] {
      StepProgress(st, es[0]);
      RunProgress(Step(st, es[0]), es[1..]);
      ProgressTransitive(st, Step(st, es[0]), Run(st, es));
    }
  }

  /** Read is final. */
  lemma RunKeepsRead(st: State, es: seq<Event>, i: nat)
    requires i < |st.store| && st.store[i].status == Read
    ensures i < |Run(st, es).store| && Run(st, es).store[i].status == Read
  {
    RunProgress(st, es);
  }

  /**
   * A handler changes a message that existed before it only by marking it
   * read: delivered is written only by the send that created the message.
   */
  lemma OnlyReadChangesExistingMessages(st: State, e: Event)
    ensures |st.store| <= |Step(st, e).store|
    ensures forall i :: 0 <= i < |st.store| && Step(st, e).store[i] != st.store[i] ==>
      e.ReadMessage? && i == e.msgId && Step(st, e).store[i].status == Read
  {
  }

  lemma AddressedKept(e: Emission, store: seq<Message>, store': seq<Message>)
    requires Addressed(e, store)
    requires |store| <= |store'|
    requires forall i :: 0 <= i < |store| ==> Advanced(store[i], store'[i])
    ensures Addressed(e, store')
  {
    match e.payload
    case Msg(m) =>
      var x, y := store[m.id], store'[m.id];
      assert m.(status := y.status) == x.(status := y.status);
    case _ =>
  }

  lemma OutboxKept(st: State, r: State)
    requires Valid(st) && Progress(st, r)
    ensures forall k :: 0 <= k < |st.outbox| ==> Addressed(r.outbox[k], r.store)
  {
    forall k | 0 <= k < |st.outbox|
      ensures Addressed(r.outbox[k], r.store)
    {
      assert r.outbox[k] == st.outbox[k];
      AddressedKept(st.outbox[k], st.store, r.store);
    }
  }

  lemma StepPreservesValid(st: State, e: Event)
    requires Valid(st)
    ensures Valid(Step(st, e))
  {
    var r := Step(st, e);
    StepProgress(st, e);
    OutboxKept(st, r);
    match e
    case Connected(s) =>
    case SendMessage(s, receiver, text, now, cf, uf) =>
    case StartTyping(s, receiver) =>
    case StopTyping(s, receiver) =>
    case ReadMessage(_, msgId, f) =>
    case Disconnected(s) =>
  }

  lemma {:induction false} RunPreservesValid(st: State, es: seq<Event>)
    requires Valid(st)
    ensures Valid(Run(st, es))
    decreases |es|
  {
    if es != [] {
      StepPreservesValid(st, es[0]);
      RunPreservesValid(Step(st, es[0]), es[1..]);
    }
  }

  /**
   * From start-up on, a message is only ever emitted to its sender's or its
   * receiver's room, and a status notice only to the sender's.
   */
  lemma MessagesReachOnlyTheirParties(es: seq<Event>)
    ensures var r := Run(Initial, es);
      forall k :: 0 <= k < |r.outbox| ==> Addressed(r.outbox[k], r.store)
  {
    RunPreservesValid(Initial, es);
  }

  /**
   * From start-up on, the socket the registry names for a user is in that
   * user's room, so a typing signal relayed to a registered receiver reaches
   * that socket.
   */
  lemma TypingReachesRegisteredSocket(es: seq<Event>, s: Socket, receiver: UserId, name: EventName)
    ensures var r := Run(Initial, es);
      var r' := RelayTyping(r, s, receiver, name);
      receiver in r.onlineUsers ==>
        && r'.outbox[|r'.outbox| - 1] == Emission(Room(receiver), name, TypingFrom(s.userId))
        && r.onlineUsers[receiver] in RoomOf(r'.rooms, receiver)
  {
    RunPreservesValid(Initial, es);
  }

  /**
   * Likewise, the delivered copy of a message sent to a registered receiver
   * goes to a room that holds the socket the registry names for it.
   */
  lemma PushReachesRegisteredSocket(es: seq<Event>, s: Socket, receiver: UserId, text: string, now: int, updateFails: bool)
    ensures var r := Run(Initial, es);
      var r' := Send(r, s, receiver, text, now, false, updateFails);
      receiver in r.onlineUsers ==>
        && r'.outbox[|r.outbox| + 1].target == Room(receiver)
        && r'.outbox[|r.outbox| + 1].name == MessageNew
        && r'.outbox[|r.outbox| + 1].payload.msg.status == Delivered
        && r.onlineUsers[receiver] in RoomOf(r'.rooms, receiver)
  {
    RunPreservesValid(Initial, es);
  }
}
