/** The socket relay of server.js: rooms that sockets join, and the
    `chatMessage` event that stores a chat and then announces it to two
    rooms. The transport itself is not modelled; an emission is recorded
    with the sockets that were in its room at that moment. */
module Server {
  import opened Common
  import opened UserModel
  import opened Store

  type SocketId = string

  /** The room key `a._id.toString() + b._id.toString()`. */
  function RoomKey(a: Id, b: Id): (k: string)
    ensures |k| == |a| + |b|
    ensures k[..|a|] == a && k[|a|..] == b
  {
    a + b
  }

  /** For two distinct ids of the same length (24-hex-digit ObjectIds, say)
      the two rooms of one message differ, so each side gets one event. */
  lemma RoomKeysDiffer(a: Id, b: Id)
    requires |a| == |b| && a != b
    ensures RoomKey(a, b) != RoomKey(b, a)
  {
    assert RoomKey(a, b)[..|a|] == a;
    assert RoomKey(b, a)[..|b|] == b;
  }

  /** `n` copies of the character `c`. */
  function Repeat(c: char, n: nat): (s: string)
    ensures |s| == n && forall i :: 0 <= i < n ==> s[i] == c
  {
    if n == 0 then "" else [c] + Repeat(c, n - 1)
  }

  /** Without the equal-length condition the keys can coincide: for any two
      distinct ids made of one repeated character the two rooms are one. */
  lemma RoomKeysMayCollide(c: char, m: nat, n: nat)
    ensures RoomKey(Repeat(c, m), Repeat(c, n)) == RoomKey(Repeat(c, n), Repeat(c, m))
  {
    var k1 := RoomKey(Repeat(c, m), Repeat(c, n));
    var k2 := RoomKey(Repeat(c, n), Repeat(c, m));
    assert |k1| == |k2|;
    forall i | 0 <= i < |k1| ensures k1[i] == k2[i] {
      assert k1[i] == c && k2[i] == c;
    }
  }

  datatype Emission = Emission(room: string, event: string, chat: Chat, delivered: set<SocketId>)

  /** What `chatMessage` stores: the chat from the user with `senderEmail`
      to the user with `recipientEmail`, stamped `now`; None when either
      lookup comes back empty (the `_id` dereference throws, and the catch
      only logs). */
  function Relayed(users: seq<User>, senderEmail: string, recipientEmail: string,
                   message: string, now: int): (r: Option<Chat>)
    ensures r.Some? <==> FindByEmail(users, senderEmail).Some? && FindByEmail(users, recipientEmail).Some?
    ensures r.Some? ==>
      r.value.sender == FindByEmail(users, senderEmail).value.id &&
      r.value.receiver == FindByEmail(users, recipientEmail).value.id &&
      r.value.message == message && r.value.timestamp == now
  {
    match (FindByEmail(users, senderEmail), FindByEmail(users, recipientEmail))
    case (Some(s), Some(c)) => Some(Chat(s.id, c.id, message, now))
    case _ => None
  }

  /** The sockets currently in room `room`. */
  function Members(rooms: map<string, set<SocketId>>, room: string): set<SocketId> {
    if room in rooms then rooms[room] else {}
  }

  class Relay {
    var rooms: map<string, set<SocketId>>
    var emitted: seq<Emission>

    constructor ()
      ensures rooms == map[] && emitted == []
    {
      rooms, emitted := map[], [];
    }

    /** `joinRoom`: `socket` becomes a member of `roomId`. */
    method JoinRoom(socket: SocketId, roomId: string)
      modifies this`rooms
      ensures rooms == old(rooms)[roomId := Members(old(rooms), roomId) + {socket}]
      ensures forall room :: Members(old(rooms), room) <= Members(rooms, room)
      ensures socket in Members(rooms, roomId)
    {
      rooms := rooms[roomId := Members(rooms, roomId) + {socket}];
    }

    /** `chatMessage`: look up both users by email, append the chat, then emit
        `messageSaved` to the room sender+recipient and `messageReceived` to
        the room recipient+sender, both carrying the stored record. When a
        lookup fails nothing is stored or emitted. */
    method ChatMessage(db: Database, senderEmail: string, recipientEmail: string,
                       message: string, now: int) returns (saved: Option<Chat>)
      modifies this`emitted, db`chats
      ensures saved == Relayed(db.users, senderEmail, recipientEmail, message, now)
      ensures saved.None? ==> db.chats == old(db.chats) && emitted == old(emitted)
      ensures saved.Some? ==>
        db.chats == old(db.chats) + [saved.value] &&
        emitted == old(emitted) + [
          Emission(RoomKey(saved.value.sender, saved.value.receiver), "messageSaved", saved.value,
                   Members(rooms, RoomKey(saved.value.sender, saved.value.receiver))),
          Emission(RoomKey(saved.value.receiver, saved.value.sender), "messageReceived", saved.value,
                   Members(rooms, RoomKey(saved.value.receiver, saved.value.sender)))]
    {
      var sender := FindByEmail(db.users, senderEmail);
      var recipient := FindByEmail(db.users, recipientEmail);
      if sender.None? || recipient.None? {
        return None;
      }
      var chat := Chat(sender.value.id, recipient.value.id, message, now);
      db.chats := db.chats + [chat];
      var forward := RoomKey(sender.value.id, recipient.value.id);
      emitted := emitted + [Emission(forward, "messageSaved", chat, Members(rooms, forward))];
      var backward := RoomKey(recipient.value.id, sender.value.id);
      emitted := emitted + [Emission(backward, "messageReceived", chat, Members(rooms, backward))];
      saved := Some(chat);
    }

    /** `disconnect`: the handler only logs, and socket.io itself takes the
        socket out of every room it had joined; emissions and the store are
        untouched. */
    method Disconnect(socket: SocketId)
      modifies this`rooms
      ensures rooms == map room | room in old(rooms) :: old(rooms)[room] - {socket}
      ensures forall room :: Members(rooms, room) == Members(old(rooms), room) - {socket}
      ensures forall room :: socket !in Members(rooms, room)
    {
      rooms := map room | room in rooms :: rooms[room] - {socket};
    }
  }
}
