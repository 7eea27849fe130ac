/** The chat store's HTTP handlers (controllers/chatController.js): the
    history between two users, and deleting or editing the first record that
    matches an exact (sender, receiver, message) triple. */
module ChatController {
  import opened Common
  import opened Store

  // ------------------------------------------------------------- getChats

  /** A chat between `a` and `b`, in either direction. */
  predicate Between(c: Chat, a: Id, b: Id) {
    (c.sender == a && c.receiver == b) || (c.sender == b && c.receiver == a)
  }

  /** The `$or` query: the chats between `a` and `b`, in store order. */
  function Conversation(chats: seq<Chat>, a: Id, b: Id): (r: seq<Chat>)
    ensures |r| <= |chats|
    ensures forall c :: c in r <==> c in chats && Between(c, a, b)
  {
    if |chats| == 0 then []
    else
      var rest := Conversation(chats[1..], a, b);
      assert forall c :: c in chats <==> c == chats[0] || c in chats[1..];
      if Between(chats[0], a, b) then [chats[0]] + rest else rest
  }

  predicate SortedByTime(s: seq<Chat>) {
    forall i, j :: 0 <= i < j < |s| ==> s[i].timestamp <= s[j].timestamp
  }

  /** Insert `c` in front of the first record that is not earlier than it. */
  function InsertByTime(c: Chat, s: seq<Chat>): (r: seq<Chat>)
    requires SortedByTime(s)
    ensures SortedByTime(r)
    ensures multiset(r) == multiset(s) + multiset{c}
    ensures forall x :: x in r <==> x in s || x == c
  {
    if |s| == 0 then [c]
    else if c.timestamp <= s[0].timestamp then [c] + s
    else
      var rest := InsertByTime(c, s[1..]);
      assert s == [s[0]] + s[1..];
      assert multiset(s) == multiset{s[0]} + multiset(s[1..]);
      assert forall x :: x in rest ==> s[0].timestamp <= x.timestamp;
      [s[0]] + rest
  }

  /** `.sort({ timestamp: 1 })`: ascending by timestamp. The order the
      database gives records with equal timestamps is not specified; this
      model keeps their store order. */
  function SortByTime(s: seq<Chat>): (r: seq<Chat>)
    ensures SortedByTime(r)
    ensures multiset(r) == multiset(s)
  {
    if |s| == 0 then []
    else
      assert s == [s[0]] + s[1..];
      InsertByTime(s[0], SortByTime(s[1..]))
  }

  /** `getChats`: every chat between the caller and `recipientId`, in both
      directions, and nothing else, in ascending timestamp order. */
  function GetChats(chats: seq<Chat>, caller: Id, recipientId: Id): (r: seq<Chat>)
    ensures SortedByTime(r)
    ensures multiset(r) == multiset(Conversation(chats, caller, recipientId))
    ensures forall c :: c in r <==> c in chats && Between(c, caller, recipientId)
  {
    var r := SortByTime(Conversation(chats, caller, recipientId));
    assert forall c :: c in r <==> c in multiset(r);
    r
  }

  // -------------------------------------------------------- deleteMessage

  /** The exact filter of `findOneAndDelete` / `findOneAndUpdate`: one
      direction, and the content compared whole. */
  predicate Addressed(c: Chat, sender: Id, receiver: Id, message: string) {
    c.sender == sender && c.receiver == receiver && c.message == message
  }

  /** `deleteMessage`: any of the three fields missing is a 400; no record
      matching the triple is a 404; otherwise the first matching record is
      removed and every other record stays, in order. */
  function Delete(chats: seq<Chat>, sender: Id, receiver: Id, message: string): (r: Result<seq<Chat>>)
    ensures !Truthy(sender) || !Truthy(receiver) || !Truthy(message) ==> r == Fail(BadRequest)
    ensures r == Fail(NotFound) <==>
      Truthy(sender) && Truthy(receiver) && Truthy(message) &&
      forall c :: c in chats ==> !Addressed(c, sender, receiver, message)
    ensures r.Ok? <==> Truthy(sender) && Truthy(receiver) && Truthy(message) &&
                       exists c :: c in chats && Addressed(c, sender, receiver, message)
    ensures r.Ok? ==> |r.value| == |chats| - 1
    ensures r.Ok? ==>
      exists i :: 0 <= i < |chats| && Addressed(chats[i], sender, receiver, message) &&
                  (forall j :: 0 <= j < i ==> !Addressed(chats[j], sender, receiver, message)) &&
                  r.value == chats[..i] + chats[i + 1..] &&
                  multiset(r.value) + multiset{chats[i]} == multiset(chats)
  {
    if !Truthy(sender) || !Truthy(receiver) || !Truthy(message) then Fail(BadRequest)
    else match FindFirst(chats, (c: Chat) => Addressed(c, sender, receiver, message))
      case None => Fail(NotFound)
      case Some(i) =>
        assert chats == chats[..i] + [chats[i]] + chats[i + 1..];
        Ok(chats[..i] + chats[i + 1..])
  }

  /** How many records match the triple. */
  function CountAddressed(chats: seq<Chat>, sender: Id, receiver: Id, message: string): nat {
    if |chats| == 0 then 0
    else (if Addressed(chats[0], sender, receiver, message) then 1 else 0)
         + CountAddressed(chats[1..], sender, receiver, message)
  }

  lemma {:induction false} CountAddressedConcat(a: seq<Chat>, b: seq<Chat>, sender: Id, receiver: Id, message: string)
    ensures CountAddressed(a + b, sender, receiver, message)
         == CountAddressed(a, sender, receiver, message) + CountAddressed(b, sender, receiver, message)
  {
    if |a| == 0 {
      assert a + b == b;
    } else {
      assert (a + b)[1..] == a[1..] + b;
      CountAddressedConcat(a[1..], b, sender, receiver, message);
    }
  }

  lemma CountRemoveAt(s: seq<Chat>, i: nat, sender: Id, receiver: Id, message: string)
    requires i < |s|
    ensures CountAddressed(s[..i] + s[i + 1..], sender, receiver, message)
            + (if Addressed(s[i], sender, receiver, message) then 1 else 0)
         == CountAddressed(s, sender, receiver, message)
  {
    assert s == s[..i] + ([s[i]] + s[i + 1..]);
    CountAddressedConcat(s[..i], [s[i]] + s[i + 1..], sender, receiver, message);
    CountAddressedConcat([s[i]], s[i + 1..], sender, receiver, message);
    CountAddressedConcat(s[..i], s[i + 1..], sender, receiver, message);
    assert [s[i]][1..] == [];
  }

  lemma ConversationRemoveAt(s: seq<Chat>, i: nat, a: Id, b: Id)
    requires i < |s| && !Between(s[i], a, b)
    ensures Conversation(s[..i] + s[i + 1..], a, b) == Conversation(s, a, b)
  {
    assert s == s[..i] + ([s[i]] + s[i + 1..]);
    ConversationConcat(s[..i], [s[i]] + s[i + 1..], a, b);
    ConversationConcat([s[i]], s[i + 1..], a, b);
    ConversationConcat(s[..i], s[i + 1..], a, b);
    assert [s[i]][1..] == [];
  }

  /** A successful delete removes exactly one record with that triple, and
      the conversation between any other pair of users is untouched. */
  lemma DeleteRemovesOne(chats: seq<Chat>, sender: Id, receiver: Id, message: string, a: Id, b: Id)
    requires Delete(chats, sender, receiver, message).Ok?
    ensures CountAddressed(Delete(chats, sender, receiver, message).value, sender, receiver, message)
         == CountAddressed(chats, sender, receiver, message) - 1
    ensures !(a == sender && b == receiver) && !(a == receiver && b == sender) ==>
      Conversation(Delete(chats, sender, receiver, message).value, a, b) == Conversation(chats, a, b)
  {
    var i := FindFirst(chats, (c: Chat) => Addressed(c, sender, receiver, message)).value;
    assert Delete(chats, sender, receiver, message).value == chats[..i] + chats[i + 1..];
    CountRemoveAt(chats, i, sender, receiver, message);
    if !(a == sender && b == receiver) && !(a == receiver && b == sender) {
      ConversationRemoveAt(chats, i, a, b);
    }
  }

  lemma {:induction false} ConversationConcat(s: seq<Chat>, t: seq<Chat>, a: Id, b: Id)
    ensures Conversation(s + t, a, b) == Conversation(s, a, b) + Conversation(t, a, b)
  {
    if |s| == 0 {
      assert s + t == t;
    } else {
      assert (s + t)[1..] == s[1..] + t;
      ConversationConcat(s[1..], t, a, b);
    }
  }

  // ---------------------------------------------------------- editMessage

  /** `editMessage`: a missing sender or receiver is a 400 (the two messages
      are not checked); no record matching (sender, receiver, oldMessage) is
      a 404; otherwise the first match gets `newMessage` as its content and
      the updated record is returned with the new store. */
  function Edit(chats: seq<Chat>, sender: Id, receiver: Id, oldMessage: string, newMessage: string)
    : (r: Result<(Chat, seq<Chat>)>)
    ensures !Truthy(sender) || !Truthy(receiver) ==> r == Fail(BadRequest)
    ensures r == Fail(NotFound) <==>
      Truthy(sender) && Truthy(receiver) &&
      forall c :: c in chats ==> !Addressed(c, sender, receiver, oldMessage)
    ensures r.Ok? <==> Truthy(sender) && Truthy(receiver) &&
                       exists c :: c in chats && Addressed(c, sender, receiver, oldMessage)
    ensures r.Ok? ==>
      exists i :: 0 <= i < |chats| && Addressed(chats[i], sender, receiver, oldMessage) &&
                  (forall j :: 0 <= j < i ==> !Addressed(chats[j], sender, receiver, oldMessage)) &&
                  r.value.1 == chats[i := chats[i].(message := newMessage)] &&
                  r.value.0 == r.value.1[i]
  {
    if !Truthy(sender) || !Truthy(receiver) then Fail(BadRequest)
    else match FindFirst(chats, (c: Chat) => Addressed(c, sender, receiver, oldMessage))
      case None => Fail(NotFound)
      case Some(i) =>
        var updated := chats[i].(message := newMessage);
        Ok((updated, chats[i := updated]))
  }

  /** What an edit must not change: who sent a record, to whom, and when. */
  predicate SameKeys(s: seq<Chat>, t: seq<Chat>) {
    |s| == |t| &&
    forall k :: 0 <= k < |s| ==>
      s[k].sender == t[k].sender && s[k].receiver == t[k].receiver && s[k].timestamp == t[k].timestamp
  }

  lemma {:induction false} ConversationSameKeys(s: seq<Chat>, t: seq<Chat>, a: Id, b: Id)
    requires SameKeys(s, t)
    ensures SameKeys(Conversation(s, a, b), Conversation(t, a, b))
  {
    if |s| > 0 {
      assert SameKeys(s[1..], t[1..]);
      ConversationSameKeys(s[1..], t[1..], a, b);
    }
  }

  lemma {:induction false} InsertSameKeys(c: Chat, s: seq<Chat>, d: Chat, t: seq<Chat>)
    requires SortedByTime(s) && SortedByTime(t) && SameKeys(s, t)
    requires c.sender == d.sender && c.receiver == d.receiver && c.timestamp == d.timestamp
    ensures SameKeys(InsertByTime(c, s), InsertByTime(d, t))
  {
    if |s| > 0 && c.timestamp > s[0].timestamp {
      assert SameKeys(s[1..], t[1..]);
      InsertSameKeys(c, s[1..], d, t[1..]);
    }
  }

  lemma {:induction false} SortSameKeys(s: seq<Chat>, t: seq<Chat>)
    requires SameKeys(s, t)
    ensures SameKeys(SortByTime(s), SortByTime(t))
  {
    if |s| > 0 {
      assert SameKeys(s[1..], t[1..]);
      SortSameKeys(s[1..], t[1..]);
      InsertSameKeys(s[0], SortByTime(s[1..]), t[0], SortByTime(t[1..]));
    }
  }

  /** An edit keeps the store's size and every record's sender, receiver and
      timestamp, so every history keeps its length and its order. */
  lemma EditPreservesHistory(chats: seq<Chat>, sender: Id, receiver: Id, oldMessage: string,
                             newMessage: string, a: Id, b: Id)
    requires Edit(chats, sender, receiver, oldMessage, newMessage).Ok?
    ensures SameKeys(Edit(chats, sender, receiver, oldMessage, newMessage).value.1, chats)
    ensures SameKeys(GetChats(Edit(chats, sender, receiver, oldMessage, newMessage).value.1, a, b),
                     GetChats(chats, a, b))
  {
    var after := Edit(chats, sender, receiver, oldMessage, newMessage).value.1;
    assert SameKeys(after, chats);
    ConversationSameKeys(after, chats, a, b);
    SortSameKeys(Conversation(after, a, b), Conversation(chats, a, b));
  }

  // ------------------------------------------------------------- handlers

  /** The `deleteMessage` handler: 204 on success. */
  method DeleteMessage(db: Database, sender: Id, receiver: Id, message: string) returns (r: Result<()>)
    modifies db`chats
    ensures match Delete(old(db.chats), sender, receiver, message)
      case Fail(e) => r == Fail(e) && db.chats == old(db.chats)
      case Ok(chats) => r == Ok(()) && db.chats == chats
  {
    match Delete(db.chats, sender, receiver, message)
    case Fail(e) => r := Fail(e);
    case Ok(chats) =>
      db.chats := chats;
      r := Ok(());
  }

  /** The `editMessage` handler: the updated record on success. */
  method EditMessage(db: Database, sender: Id, receiver: Id, oldMessage: string, newMessage: string)
    returns (r: Result<Chat>)
    modifies db`chats
    ensures match Edit(old(db.chats), sender, receiver, oldMessage, newMessage)
      case Fail(e) => r == Fail(e) && db.chats == old(db.chats)
      case Ok((updated, chats)) => r == Ok(updated) && db.chats == chats
  {
    match Edit(db.chats, sender, receiver, oldMessage, newMessage)
    case Fail(e) => r := Fail(e);
    case Ok((updated, chats)) =>
      db.chats := chats;
      r := Ok(updated);
  }
}
