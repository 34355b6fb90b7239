/**
 * The socket server of `server/index.js` as an object: the registry, the
 * rooms, the message store and the outbox are fields the handlers update in
 * place. Each handler method is proved to leave the state its ServerSpec step
 * function describes, and to keep ServerSpec.Valid.
 */
module ChatServer {
  import opened Domain
  import opened ServerSpec

  class Server {
    /** `onlineUsers`: userId -> socketId. */
    var onlineUsers: map<UserId, SocketId>
    /** The sockets in each user's room (`socket.join(socket.userId)`). */
    var rooms: map<UserId, set<SocketId>>
    /** The message collection; a message's id is its position. */
    var store: seq<Message>
    /** Everything emitted so far, in emission order. */
    var outbox: seq<Emission>

    function Snapshot(): State
      reads this
    {
      State(onlineUsers, rooms, store, outbox)
    }

    ghost predicate Valid()
      reads this
    {
      ServerSpec.Valid(Snapshot())
    }

    constructor ()
      ensures Valid() && Snapshot() == Initial
    {
      onlineUsers, rooms, store, outbox := map[], map[], [], [];
    }

    method Emit(target: Target, name: EventName, payload: Payload)
      modifies this`outbox
      ensures outbox == old(outbox) + [Emission(target, name, payload)]
    {
      outbox := outbox + [Emission(target, name, payload)];
    }

    /** io.on("connection") */
    method OnConnect(s: Socket)
      requires Valid()
      modifies this
      ensures Valid() && Snapshot() == Connect(old(Snapshot()), s)
    {
      StepPreservesValid(Snapshot(), Connected(s));
      onlineUsers := onlineUsers[s.userId := s.id];
      Emit(Everyone, UserOnline, Presence(s.userId));
      rooms := rooms[s.userId := RoomOf(rooms, s.userId) + {s.id}];
    }

    /** socket.on("message:send") */
    method OnSend(s: Socket, receiver: UserId, text: string, now: int, createFails: bool, updateFails: bool)
      requires Valid()
      modifies this
      ensures Valid() && Snapshot() == Send(old(Snapshot()), s, receiver, text, now, createFails, updateFails)
    {
      StepPreservesValid(Snapshot(), SendMessage(s, receiver, text, now, createFails, updateFails));
      if createFails {
        return;
      }
      var msg := Message(|store|, s.userId, receiver, text, Sent, now);
      store := store + [msg];
      Emit(Room(s.userId), MessageNew, Msg(msg));
      if receiver in onlineUsers {
        Emit(Room(receiver), MessageNew, Msg(msg.(status := Delivered)));
        if updateFails {
          return;
        }
        store := store[msg.id := store[msg.id].(status := Delivered)];
        Emit(Room(s.userId), MessageStatus, StatusChange(msg.id, Delivered));
      }
    }

    /** socket.on("typing:start") */
    method OnTypingStart(s: Socket, receiver: UserId)
      requires Valid()
      modifies this
      ensures Valid() && Snapshot() == RelayTyping(old(Snapshot()), s, receiver, TypingStart)
    {
      StepPreservesValid(Snapshot(), StartTyping(s, receiver));
      if receiver in onlineUsers {
        Emit(Room(receiver), TypingStart, TypingFrom(s.userId));
      }
    }

    /** socket.on("typing:stop") */
    method OnTypingStop(s: Socket, receiver: UserId)
      requires Valid()
      modifies this
      ensures Valid() && Snapshot() == RelayTyping(old(Snapshot()), s, receiver, TypingStop)
    {
      StepPreservesValid(Snapshot(), StopTyping(s, receiver));
      if receiver in onlineUsers {
        Emit(Room(receiver), TypingStop, TypingFrom(s.userId));
      }
    }

    /** socket.on("message:read") */
    method OnRead(s: Socket, msgId: int, storeFails: bool)
      requires Valid()
      modifies this
      ensures Valid() && Snapshot() == MarkRead(old(Snapshot()), msgId, storeFails)
    {
      StepPreservesValid(Snapshot(), ReadMessage(s, msgId, storeFails));
      if storeFails || !(0 <= msgId < |store|) {
        return;
      }
      var msg := store[msgId];
      msg := msg.(status := Read);
      store := store[msgId := msg];
      Emit(Room(msg.sender), MessageRead, Msg(msg));
      Emit(Room(msg.receiver), MessageRead, Msg(msg));
    }

    /** socket.on("disconnect") */
    method OnDisconnect(s: Socket)
      requires Valid()
      modifies this
      ensures Valid() && Snapshot() == Disconnect(old(Snapshot()), s)
    {
      StepPreservesValid(Snapshot(), Disconnected(s));
      onlineUsers := onlineUsers - {s.userId};
      Emit(Everyone, UserOffline, Presence(s.userId));
      // socket.io takes a closed socket out of the rooms it joined
      rooms := rooms[s.userId := RoomOf(rooms, s.userId) - {s.id}];
    }
  }
}
