/** The relationship ledger and its read-side projections
    (controllers/userController.js): suggestions, sending, accepting and
    dismissing friend requests, the incoming-request list, the friends list
    and the per-title friend counts kept in a module-level accumulator. */
module UserController {
  import opened Common
  import opened UserModel
  import opened FriendRequestModel
  import opened Store

  // ---------------------------------------------------------------- suggest

  /** The three conditions of the suggestion query, plus the find filter. */
  predicate Suggestible(me: User, u: User) {
    u.active && u.id != me.id && u.title == me.title && u.id !in me.rejectedUsers
  }

  /** `suggest`: the users sharing the caller's title, other than the caller
      and the users the caller rejected, in store order. A caller that no
      longer resolves makes `currentUser._id` throw: 500. */
  function Suggest(users: seq<User>, caller: Id): (r: Result<seq<User>>)
    ensures r.Fail? <==> FindById(users, caller).None?
    ensures r.Fail? ==> r.error == ServerError
    ensures r.Ok? ==> forall u :: u in r.value <==>
      u in users && Suggestible(FindById(users, caller).value, u)
  {
    match FindById(users, caller)
    case None => Fail(ServerError)
    case Some(me) => Ok(Filter(users, (u: User) => Suggestible(me, u)))
  }

  // ---------------------------------------------------- sendFriendRequest

  predicate SentBy(q: FriendRequest, recipient: Id, sender: Id) {
    q.recipient == recipient && q.sender == sender
  }

  /** Whether the ledger holds a record from `sender` to `recipient`, in that
      direction and of any status. */
  predicate AlreadyRequested(ledger: seq<FriendRequest>, recipient: Id, sender: Id) {
    exists k :: 0 <= k < |ledger| && SentBy(ledger[k], recipient, sender)
  }

  /** How many records go from `sender` to `recipient`. */
  function CountSent(ledger: seq<FriendRequest>, recipient: Id, sender: Id): (n: nat)
    ensures n == 0 <==> !AlreadyRequested(ledger, recipient, sender)
    ensures n <= |ledger|
  {
    if |ledger| == 0 then 0
    else
      var rest := CountSent(ledger[1..], recipient, sender);
      assert AlreadyRequested(ledger[1..], recipient, sender) ==> AlreadyRequested(ledger, recipient, sender);
      (if SentBy(ledger[0], recipient, sender) then 1 else 0) + rest
  }

  lemma {:induction false} CountSentAppend(ledger: seq<FriendRequest>, q: FriendRequest, recipient: Id, sender: Id)
    ensures CountSent(ledger + [q], recipient, sender)
         == CountSent(ledger, recipient, sender) + (if SentBy(q, recipient, sender) then 1 else 0)
  {
    if |ledger| == 0 {
      assert ledger + [q] == [q];
    } else {
      assert (ledger + [q])[1..] == ledger[1..] + [q];
      CountSentAppend(ledger[1..], q, recipient, sender);
    }
  }

  datatype SendReply = Created(ledger: seq<FriendRequest>) | AlreadySent

  /** `sendFriendRequest` from `caller` to `userId` at time `now`. An unknown
      recipient reaches `new ErrorResponse(...)`, a name the file never
      defines, so the handler ends in its catch with a server error. A record
      already going the same way reports "already sent" and creates nothing;
      the reverse direction is not looked at. */
  function Send(users: seq<User>, ledger: seq<FriendRequest>, caller: Id, userId: Id, now: int)
    : (r: Result<SendReply>)
    ensures r.Fail? <==> FindById(users, userId).None?
    ensures r.Fail? ==> r.error == ServerError
    ensures r == Ok(AlreadySent) <==>
      FindById(users, userId).Some? && AlreadyRequested(ledger, userId, caller)
    ensures r.Ok? && r.value.Created? ==>
      r.value.ledger == ledger + [NewRequest(userId, caller, now)]
  {
    match FindById(users, userId)
    case None => Fail(ServerError)
    case Some(recipient) =>
      match FindFirst(ledger, (q: FriendRequest) => SentBy(q, recipient.id, caller))
      case Some(_) => Ok(AlreadySent)
      case None => Ok(Created(ledger + [NewRequest(recipient.id, caller, now)]))
  }

  /** Sending the same request twice leaves exactly one record going that
      way: the first call creates it and the second reports "already sent". */
  lemma SendTwiceCreatesOne(users: seq<User>, ledger: seq<FriendRequest>, caller: Id,
                            userId: Id, now: int, later: int)
    requires !AlreadyRequested(ledger, userId, caller)
    requires Send(users, ledger, caller, userId, now).Ok?
    ensures Send(users, ledger, caller, userId, now).value.Created?
    ensures CountSent(Send(users, ledger, caller, userId, now).value.ledger, userId, caller) == 1
    ensures Send(users, Send(users, ledger, caller, userId, now).value.ledger, caller, userId, later)
         == Ok(AlreadySent)
  {
    var q := NewRequest(userId, caller, now);
    CountSentAppend(ledger, q, userId, caller);
    var l1 := ledger + [q];
    assert SentBy(l1[|ledger|], userId, caller);
  }

  /** The duplicate check is directional: a pending request from the
      recipient to the caller does not stop the caller's request to them. */
  lemma ReverseRequestDoesNotBlock(users: seq<User>, caller: Id, userId: Id, t: int, now: int)
    requires FindById(users, userId).Some? && caller != userId
    ensures Send(users, [NewRequest(caller, userId, t)], caller, userId, now)
         == Ok(Created([NewRequest(caller, userId, t), NewRequest(userId, caller, now)]))
  {
    var x := NewRequest(caller, userId, t);
    assert !SentBy(x, userId, caller);
    assert !AlreadyRequested([x], userId, caller);
    assert [x] + [NewRequest(userId, caller, now)] == [x, NewRequest(userId, caller, now)];
  }

  /** The schema forbids neither a request to oneself nor a second record
      for the same pair: a resolving caller can send themselves a request. */
  lemma SelfRequestAllowed(users: seq<User>, ledger: seq<FriendRequest>, caller: Id, now: int)
    requires FindById(users, caller).Some? && !AlreadyRequested(ledger, caller, caller)
    ensures Send(users, ledger, caller, caller, now) == Ok(Created(ledger + [NewRequest(caller, caller, now)]))
  {
  }

  // ------------------------------------------- deleteSuggestion / deleteRequest

  /** `deleteSuggestion` and `deleteRequest` (identical bodies): an unknown
      target is a 404; a caller that no longer resolves makes
      `currentUser.rejectedUsers` throw; otherwise the target's id is pushed
      onto the end of the caller's `rejectedUsers`, duplicates included. The
      save skips validation and neither pre-save hook acts, since the password
      is not modified. No friend-request record changes. */
  function Dismiss(users: seq<User>, caller: Id, target: Id): (r: Result<seq<User>>)
    ensures FindById(users, target).None? ==> r == Fail(NotFound)
    ensures FindById(users, target).Some? && FindById(users, caller).None? ==> r == Fail(ServerError)
    ensures r.Ok? <==> FindById(users, target).Some? && FindById(users, caller).Some?
    ensures r.Ok? ==>
      var i := IndexById(users, caller).value;
      |r.value| == |users| &&
      r.value[i] == users[i].(rejectedUsers := users[i].rejectedUsers + [target]) &&
      forall j :: 0 <= j < |users| && j != i ==> r.value[j] == users[j]
  {
    match FindById(users, target)
    case None => Fail(NotFound)
    case Some(user) =>
      match IndexById(users, caller)
      case None => Fail(ServerError)
      case Some(i) =>
        Ok(users[i := users[i].(rejectedUsers := users[i].rejectedUsers + [user.id])])
  }

  /** After a successful dismissal the target is never suggested to the
      caller again, and the caller still resolves. */
  lemma DismissHidesSuggestion(users: seq<User>, caller: Id, target: Id)
    requires Dismiss(users, caller, target).Ok?
    ensures Suggest(Dismiss(users, caller, target).value, caller).Ok?
    ensures forall u :: u in Suggest(Dismiss(users, caller, target).value, caller).value ==> u.id != target
  {
    var after := Dismiss(users, caller, target).value;
    var i := IndexById(users, caller).value;
    assert Resolves(after[i], caller);
    forall j | 0 <= j < i ensures !Resolves(after[j], caller) {
      assert after[j] == users[j];
    }
    FindFirstUnique(after, (u: User) => Resolves(u, caller), i);
    assert FindById(after, caller) == Some(after[i]);
    assert target in after[i].rejectedUsers;
  }

  // ---------------------------------------------------- getFriendRequests

  /** The fields `populate("sender", "name email cloudinaryImageUrl title")`
      keeps, with the id. */
  datatype Summary = Summary(id: Id, name: string, email: string, imageUrl: string, title: string)

  function Summarize(u: User): Summary {
    Summary(u.id, u.name, u.email, u.imageUrl, u.title)
  }

  datatype Incoming = Incoming(request: FriendRequest, sender: Summary)

  /** Which records the incoming list keeps: addressed to the caller, with a
      sender that still resolves and is not in the caller's `rejectedUsers`.
      The status is not looked at. */
  predicate Listed(users: seq<User>, me: User, q: FriendRequest) {
    q.recipient == me.id && FindById(users, q.sender).Some? && q.sender !in me.rejectedUsers
  }

  function Populate(users: seq<User>, q: FriendRequest): Incoming
    requires FindById(users, q.sender).Some?
  {
    Incoming(q, Summarize(FindById(users, q.sender).value))
  }

  function IncomingFrom(users: seq<User>, me: User, ledger: seq<FriendRequest>): (r: seq<Incoming>)
    ensures |r| <= |ledger|
    ensures forall x :: x in r ==>
      x.request in ledger && Listed(users, me, x.request) && x == Populate(users, x.request)
    ensures forall q :: q in ledger && Listed(users, me, q) ==> Populate(users, q) in r
  {
    if |ledger| == 0 then []
    else
      var rest := IncomingFrom(users, me, ledger[1..]);
      assert forall q :: q in ledger[1..] ==> q in ledger;
      assert forall q :: q in ledger ==> q == ledger[0] || q in ledger[1..];
      if Listed(users, me, ledger[0]) then [Populate(users, ledger[0])] + rest else rest
  }

  /** The incoming list of a concatenated ledger is the concatenation of the
      two lists: records keep their ledger order, one entry per record. */
  lemma {:induction false} IncomingFromConcat(users: seq<User>, me: User, a: seq<FriendRequest>, b: seq<FriendRequest>)
    ensures IncomingFrom(users, me, a + b) == IncomingFrom(users, me, a) + IncomingFrom(users, me, b)
  {
    if |a| == 0 {
      assert a + b == b;
    } else {
      assert (a + b)[1..] == a[1..] + b;
      IncomingFromConcat(users, me, a[1..], b);
    }
  }

  /** A single record is listed once when it passes the filter, else not. */
  lemma IncomingFromSingle(users: seq<User>, me: User, q: FriendRequest)
    ensures IncomingFrom(users, me, [q]) == if Listed(users, me, q) then [Populate(users, q)] else []
  {
    assert [q][1..] == [];
  }

  /** Whether some record addressed to `caller` has a sender that still
      resolves: only for such a record does the filter callback reach
      `currentUser`. */
  predicate HasLiveIncoming(users: seq<User>, ledger: seq<FriendRequest>, caller: Id) {
    exists q :: q in ledger && q.recipient == caller && FindById(users, q.sender).Some?
  }

  /** `getFriendRequests`: in ledger order, every record addressed to the
      caller whose sender resolves and was not rejected, accepted ones
      included, each with its sender's summary. A caller that no longer
      resolves makes the filter callback throw, but only once it is called
      for a record whose sender resolved; otherwise the list is empty. */
  function GetFriendRequests(users: seq<User>, ledger: seq<FriendRequest>, caller: Id)
    : (r: Result<seq<Incoming>>)
    ensures r.Fail? <==> FindById(users, caller).None? && HasLiveIncoming(users, ledger, caller)
    ensures r.Fail? ==> r.error == ServerError
    ensures FindById(users, caller).None? && r.Ok? ==> r.value == []
    ensures FindById(users, caller).Some? ==> r == Ok(IncomingFrom(users, FindById(users, caller).value, ledger))
    ensures r.Ok? ==> |r.value| <= |ledger|
    ensures FindById(users, caller).Some? ==> forall x :: x in r.value ==>
      x.request in ledger && Listed(users, FindById(users, caller).value, x.request) &&
      x == Populate(users, x.request)
    ensures FindById(users, caller).Some? ==>
      forall q :: q in ledger && Listed(users, FindById(users, caller).value, q) ==> Populate(users, q) in r.value
  {
    match FindById(users, caller)
    case None => if HasLiveIncoming(users, ledger, caller) then Fail(ServerError) else Ok([])
    case Some(me) => Ok(IncomingFrom(users, me, ledger))
  }

  // -------------------------------------------------- acceptFriendRequest

  /** `acceptFriendRequest`: the first record from `senderId` to the caller
      becomes accepted, whatever its status was; nothing else changes. No such
      record is a 404. */
  function Accept(ledger: seq<FriendRequest>, caller: Id, senderId: Id): (r: Result<seq<FriendRequest>>)
    ensures r.Fail? <==> !AlreadyRequested(ledger, caller, senderId)
    ensures r.Fail? ==> r.error == NotFound
    ensures r.Ok? ==>
      exists i :: 0 <= i < |ledger| && SentBy(ledger[i], caller, senderId) &&
                  (forall j :: 0 <= j < i ==> !SentBy(ledger[j], caller, senderId)) &&
                  r.value == ledger[i := ledger[i].(status := Accepted)]
  {
    match FindFirst(ledger, (q: FriendRequest) => SentBy(q, caller, senderId))
    case None => Fail(NotFound)
    case Some(i) => Ok(ledger[i := ledger[i].(status := Accepted)])
  }

  /** Accepting again finds the same record and changes nothing more. */
  lemma AcceptIdempotent(ledger: seq<FriendRequest>, caller: Id, senderId: Id)
    requires Accept(ledger, caller, senderId).Ok?
    ensures Accept(Accept(ledger, caller, senderId).value, caller, senderId)
         == Accept(ledger, caller, senderId)
  {
    var after := Accept(ledger, caller, senderId).value;
    var i := FindFirst(ledger, (q: FriendRequest) => SentBy(q, caller, senderId)).value;
    forall j | 0 <= j < i ensures !SentBy(after[j], caller, senderId) {
      assert after[j] == ledger[j];
    }
    FindFirstUnique(after, (q: FriendRequest) => SentBy(q, caller, senderId), i);
    assert after[i := after[i].(status := Accepted)] == after;
  }

  // ------------------------------------------------------- getFriendsList

  /** The two shapes of entry in the friends list. A friend entry uses the
      keys name/email/cloudinaryImageUrl/title/id; the caller's own entry uses
      senderName/senderEmail/senderImageUrl/senderTitle/senderId, so the two
      never compare equal under `JSON.stringify`. */
  datatype Entry =
    | FriendEntry(name: string, email: string, cloudinaryImageUrl: string, title: string, id: Id)
    | SenderEntry(senderName: string, senderEmail: string, senderImageUrl: string,
                  senderTitle: string, senderId: Id)

  function FriendOf(u: User): Entry {
    FriendEntry(u.name, u.email, u.imageUrl, u.title, u.id)
  }

  function SelfOf(u: User): Entry {
    SenderEntry(u.name, u.email, u.imageUrl, u.title, u.id)
  }

  /** The records the friends list reads: accepted, with the caller on either
      side, and both parties still resolving after `populate`. */
  predicate Befriends(users: seq<User>, caller: Id, q: FriendRequest) {
    q.status == Accepted && (q.recipient == caller || q.sender == caller) &&
    FindById(users, q.sender).Some? && FindById(users, q.recipient).Some?
  }

  /** The party that is not the caller (the sender when the caller is the
      recipient). */
  function Counterpart(users: seq<User>, caller: Id, q: FriendRequest): Entry
    requires Befriends(users, caller, q)
  {
    if q.recipient == caller then FriendOf(FindById(users, q.sender).value)
    else FriendOf(FindById(users, q.recipient).value)
  }

  function CountBefriends(users: seq<User>, caller: Id, ledger: seq<FriendRequest>): nat {
    if |ledger| == 0 then 0
    else (if Befriends(users, caller, ledger[0]) then 1 else 0) + CountBefriends(users, caller, ledger[1..])
  }

  /** The mapped list before the caller's own entry is pushed. */
  function FriendEntries(users: seq<User>, caller: Id, ledger: seq<FriendRequest>): (r: seq<Entry>)
    ensures |r| == CountBefriends(users, caller, ledger)
    ensures forall e :: e in r <==>
      exists q :: q in ledger && Befriends(users, caller, q) && e == Counterpart(users, caller, q)
  {
    if |ledger| == 0 then []
    else
      var rest := FriendEntries(users, caller, ledger[1..]);
      assert forall q :: q in ledger[1..] ==> q in ledger;
      assert forall q :: q in ledger ==> q == ledger[0] || q in ledger[1..];
      if Befriends(users, caller, ledger[0])
      then [Counterpart(users, caller, ledger[0])] + rest
      else rest
  }

  /** The mapped list of a concatenated ledger is the concatenation of the
      two mapped lists, so entries follow ledger order. */
  lemma {:induction false} FriendEntriesConcat(users: seq<User>, caller: Id, a: seq<FriendRequest>, b: seq<FriendRequest>)
    ensures FriendEntries(users, caller, a + b) == FriendEntries(users, caller, a) + FriendEntries(users, caller, b)
  {
    if |a| == 0 {
      assert a + b == b;
    } else {
      assert (a + b)[1..] == a[1..] + b;
      FriendEntriesConcat(users, caller, a[1..], b);
    }
  }

  /** A single record maps to its counterpart when it befriends the caller. */
  lemma FriendEntriesSingle(users: seq<User>, caller: Id, q: FriendRequest)
    ensures FriendEntries(users, caller, [q]) ==
      if Befriends(users, caller, q) then [Counterpart(users, caller, q)] else []
  {
    assert [q][1..] == [];
  }

  /** `getFriendsList`: the counterpart of every accepted record the caller
      is party to, then the caller's own entry, deduplicated by structural
      equality with first occurrences kept in order. A caller that no longer
      resolves makes `currentUser.name` throw. */
  function GetFriendsList(users: seq<User>, ledger: seq<FriendRequest>, caller: Id)
    : (r: Result<seq<Entry>>)
    ensures r.Fail? <==> FindById(users, caller).None?
    ensures r.Fail? ==> r.error == ServerError
    ensures r.Ok? ==> NoDuplicates(r.value)
    ensures r.Ok? ==> |r.value| <= CountBefriends(users, caller, ledger) + 1
    ensures r.Ok? ==> forall e :: e in r.value <==>
      e == SelfOf(FindById(users, caller).value) ||
      exists q :: q in ledger && Befriends(users, caller, q) && e == Counterpart(users, caller, q)
    ensures r.Ok? ==>
      var mapped := FriendEntries(users, caller, ledger) + [SelfOf(FindById(users, caller).value)];
      forall i, j :: 0 <= i < j < |r.value| ==>
        r.value[i] in mapped && r.value[j] in mapped && FirstIndex(mapped, r.value[i]) < FirstIndex(mapped, r.value[j])
  {
    match FindById(users, caller)
    case None => Fail(ServerError)
    case Some(me) => Ok(Dedupe(FriendEntries(users, caller, ledger) + [SelfOf(me)]))
  }

  /** The caller's own entry is in the list exactly once, and it is the only
      entry of its shape. */
  lemma SelfEntryOnce(users: seq<User>, ledger: seq<FriendRequest>, caller: Id)
    requires GetFriendsList(users, ledger, caller).Ok?
    ensures multiset(GetFriendsList(users, ledger, caller).value)[SelfOf(FindById(users, caller).value)] == 1
    ensures forall e :: e in GetFriendsList(users, ledger, caller).value && e.SenderEntry? ==>
      e == SelfOf(FindById(users, caller).value)
  {
    var list := GetFriendsList(users, ledger, caller).value;
    OccursOnce(list, SelfOf(FindById(users, caller).value));
  }

  /** The record is between `a` and `b`, in either direction. */
  predicate Links(q: FriendRequest, a: Id, b: Id) {
    (q.sender == a && q.recipient == b) || (q.recipient == a && q.sender == b)
  }

  /** Only accepted records surface: when every record between the caller
      and `other`, in either direction, is pending or rejected, no friend
      entry carries `other`'s id. */
  lemma OnlyAcceptedSurface(users: seq<User>, ledger: seq<FriendRequest>, caller: Id, other: Id)
    requires GetFriendsList(users, ledger, caller).Ok?
    requires forall q :: q in ledger && Links(q, caller, other) ==> q.status != Accepted
    ensures forall e :: e in GetFriendsList(users, ledger, caller).value && e.FriendEntry? ==> e.id != other
  {
    forall e | e in GetFriendsList(users, ledger, caller).value && e.FriendEntry?
      ensures e.id != other
    {
      var q :| q in ledger && Befriends(users, caller, q) && e == Counterpart(users, caller, q);
      if q.recipient == caller {
        assert e.id == q.sender;
      } else {
        assert e.id == q.recipient;
      }
    }
  }

  /** A sends B a request on an empty ledger; B's incoming list holds exactly
      that request; B accepts it; each then lists the other as a friend. */
  lemma RequestAcceptScenario(users: seq<User>, a: Id, b: Id, now: int)
    requires FindById(users, a).Some? && FindById(users, b).Some? && a != b
    requires a !in FindById(users, b).value.rejectedUsers
    ensures Send(users, [], a, b, now) == Ok(Created([NewRequest(b, a, now)]))
    ensures GetFriendRequests(users, [NewRequest(b, a, now)], b)
         == Ok([Incoming(NewRequest(b, a, now), Summarize(FindById(users, a).value))])
    ensures Accept([NewRequest(b, a, now)], b, a).Ok?
    ensures GetFriendsList(users, Accept([NewRequest(b, a, now)], b, a).value, a).Ok?
    ensures FriendOf(FindById(users, b).value) in GetFriendsList(users, Accept([NewRequest(b, a, now)], b, a).value, a).value
    ensures FriendOf(FindById(users, a).value) in GetFriendsList(users, Accept([NewRequest(b, a, now)], b, a).value, b).value
  {
    var q := NewRequest(b, a, now);
    assert !AlreadyRequested([], b, a);
    assert [] + [q] == [q];
    var me := FindById(users, b).value;
    assert Listed(users, me, q);
    assert IncomingFrom(users, me, [q]) == [Populate(users, q)] by {
      assert [q][1..] == [];
    }
    assert SentBy(q, b, a);
    var l2 := Accept([q], b, a).value;
    assert l2 == [q.(status := Accepted)];
    var q2 := l2[0];
    assert q2 in l2 && Befriends(users, a, q2) && Befriends(users, b, q2);
    assert Counterpart(users, a, q2) == FriendOf(FindById(users, b).value);
    assert Counterpart(users, b, q2) == FriendOf(FindById(users, a).value);
  }

  // ---------------------------------------------------------- friendsCount

  /** The state the concurrent callbacks of `friendsCount` leave behind: the
      title buckets, and whether any callback threw. */
  datatype Tally = Tally(buckets: map<string, set<Id>>, failed: bool)

  predicate IsAccepted(q: FriendRequest) {
    q.status == Accepted
  }

  /** `FriendRequest.aggregate([{ $match: { status: "accepted" } }])`. */
  function AcceptedRecords(ledger: seq<FriendRequest>): (r: seq<FriendRequest>)
    ensures forall q :: q in r <==> q in ledger && q.status == Accepted
  {
    Filter(ledger, IsAccepted)
  }

  /** One callback: when both parties resolve, the sender's id goes into the
      bucket of the sender's title and then the recipient's id into the bucket
      of the recipient's title. A title that is not a bucket key makes
      `.add` throw at that point, so a bad sender title also skips the
      recipient. */
  function AddPair(b: map<string, set<Id>>, users: seq<User>, q: FriendRequest): (r: Tally)
    ensures r.buckets.Keys == b.Keys
    ensures r.failed <==> Throws(users, b.Keys, q)
    ensures forall t, x :: t in b ==> (x in r.buckets[t] <==> x in b[t] || Contributes(users, b.Keys, q, x, t))
  {
    var s := FindById(users, q.sender);
    var c := FindById(users, q.recipient);
    if s.None? || c.None? then Tally(b, false)
    else if s.value.title !in b then Tally(b, true)
    else
      var b1 := b[s.value.title := b[s.value.title] + {q.sender}];
      if c.value.title !in b1 then Tally(b1, true)
      else Tally(b1[c.value.title := b1[c.value.title] + {q.recipient}], false)
  }

  /** Every callback applied in turn to the records `rs`. */
  function TallyAll(b: map<string, set<Id>>, users: seq<User>, rs: seq<FriendRequest>): (r: Tally)
    ensures r.buckets.Keys == b.Keys
    ensures forall t :: t in b ==> b[t] <= r.buckets[t]
    decreases |rs|
  {
    if |rs| == 0 then Tally(b, false)
    else
      var t := TallyAll(b, users, rs[..|rs| - 1]);
      var s := AddPair(t.buckets, users, rs[|rs| - 1]);
      Tally(s.buckets, t.failed || s.failed)
  }

  /** Whether record `q` puts id `x` into the bucket `t`, given the bucket
      keys `keys`. */
  predicate Contributes(users: seq<User>, keys: set<string>, q: FriendRequest, x: Id, t: string) {
    FindById(users, q.sender).Some? && FindById(users, q.recipient).Some? &&
    FindById(users, q.sender).value.title in keys &&
    ((x == q.sender && t == FindById(users, q.sender).value.title) ||
     (x == q.recipient && t == FindById(users, q.recipient).value.title && t in keys))
  }

  /** Whether record `q` makes its callback throw. */
  predicate Throws(users: seq<User>, keys: set<string>, q: FriendRequest) {
    FindById(users, q.sender).Some? && FindById(users, q.recipient).Some? &&
    (FindById(users, q.sender).value.title !in keys || FindById(users, q.recipient).value.title !in keys)
  }

  /** The buckets keep their keys, collect exactly the ids some record
      contributes, and the run fails exactly when some record throws. */
  lemma {:induction false} TallyAllSpec(b: map<string, set<Id>>, users: seq<User>, rs: seq<FriendRequest>)
    ensures TallyAll(b, users, rs).buckets.Keys == b.Keys
    ensures TallyAll(b, users, rs).failed <==> exists q :: q in rs && Throws(users, b.Keys, q)
    ensures forall t, x :: t in b ==>
      (x in TallyAll(b, users, rs).buckets[t] <==>
       x in b[t] || exists q :: q in rs && Contributes(users, b.Keys, q, x, t))
  {
    if |rs| > 0 {
      var init := rs[..|rs| - 1];
      var last := rs[|rs| - 1];
      assert rs == init + [last];
      TallyAllSpec(b, users, init);
      var t := TallyAll(b, users, init);
      assert forall q :: q in rs <==> q in init || q == last;
    }
  }

  /** The result does not depend on the order in which the callbacks run:
      any two runs over the same records leave the same buckets and the same
      failure. */
  lemma TallyOrderFree(b: map<string, set<Id>>, users: seq<User>, rs: seq<FriendRequest>, rs': seq<FriendRequest>)
    requires forall q :: q in rs <==> q in rs'
    ensures TallyAll(b, users, rs) == TallyAll(b, users, rs')
  {
    TallyAllSpec(b, users, rs);
    TallyAllSpec(b, users, rs');
    var m1 := TallyAll(b, users, rs).buckets;
    var m2 := TallyAll(b, users, rs').buckets;
    forall t | t in m1 ensures m1[t] == m2[t] {
      assert forall x :: x in m1[t] <==> x in m2[t];
    }
  }

  /** No bucket ever loses an id, so no count ever goes down. */
  lemma TallyGrows(b: map<string, set<Id>>, users: seq<User>, rs: seq<FriendRequest>)
    ensures forall t :: t in b ==>
      (t in TallyAll(b, users, rs).buckets &&
       b[t] <= TallyAll(b, users, rs).buckets[t] &&
       |b[t]| <= |TallyAll(b, users, rs).buckets[t]|)
  {
    TallyAllSpec(b, users, rs);
    forall t | t in b ensures |b[t]| <= |TallyAll(b, users, rs).buckets[t]| {
      SubsetSize(b[t], TallyAll(b, users, rs).buckets[t]);
    }
  }

  lemma {:induction false} SubsetSize<T>(a: set<T>, b: set<T>)
    requires a <= b
    ensures |a| <= |b|
  {
    if a != {} {
      var x :| x in a;
      SubsetSize(a - {x}, b - {x});
    }
  }

  /** `categoryLengths`: the size of each title's bucket. */
  function CategorySizes(b: map<string, set<Id>>, titles: seq<string>): (r: map<string, nat>)
    ensures forall t :: t in r <==> t in titles && t in b
  {
    map t | t in titles && t in b :: |b[t]|
  }

  lemma CategorySizesStep(b: map<string, set<Id>>, titles: seq<string>, k: nat)
    requires k < |titles| && titles[k] in b
    ensures CategorySizes(b, titles[..k + 1]) == CategorySizes(b, titles[..k])[titles[k] := |b[titles[k]]|]
  {
    assert titles[..k + 1] == titles[..k] + [titles[k]];
  }

  /** The module-level `friendCountsByCategory`: one set of ids per title,
      shared by every call of `friendsCount` for the life of the process. */
  class FriendCounter {
    var buckets: map<string, set<Id>>

    ghost predicate Valid()
      reads this
    {
      forall t :: t in buckets <==> t in Titles
    }

    constructor ()
      ensures Valid()
      ensures forall t :: t in buckets ==> buckets[t] == {}
    {
      buckets := map t | t in Titles :: {};
    }

    /** One callback of `friendsCount` for record `q`: whether it threw. */
    method AddRecord(q: FriendRequest, users: seq<User>) returns (threw: bool)
      modifies this
      ensures Tally(buckets, threw) == AddPair(old(buckets), users, q)
    {
      threw := false;
      var senderUser := FindById(users, q.sender);
      var recipientUser := FindById(users, q.recipient);
      if senderUser.Some? && recipientUser.Some? {
        var senderTitle := senderUser.value.title;
        if senderTitle in buckets {
          buckets := buckets[senderTitle := buckets[senderTitle] + {q.sender}];
          var recipientTitle := recipientUser.value.title;
          if recipientTitle in buckets {
            buckets := buckets[recipientTitle := buckets[recipientTitle] + {q.recipient}];
          } else {
            threw := true;
          }
        } else {
          threw := true;
        }
      }
    }

    /** `categoryLengths`, built key by key. */
    method Sizes() returns (lengths: map<string, nat>)
      requires Valid()
      ensures lengths == CategorySizes(buckets, Titles)
    {
      lengths := map[];
      for k := 0 to |Titles|
        invariant lengths == CategorySizes(buckets, Titles[..k])
      {
        CategorySizesStep(buckets, Titles, k);
        lengths := lengths[Titles[k] := |buckets[Titles[k]]|];
      }
      assert Titles[..|Titles|] == Titles;
    }

    /** `friendsCount`: run the callback for every accepted record, then copy
        the bucket sizes out in the keys' order. The sets are never reset, so
        ids from earlier calls stay counted. A callback that threw turns the
        reply into a 500, but the other callbacks still finish their adds. */
    method FriendsCount(db: Database) returns (r: Result<map<string, nat>>)
      requires Valid()
      modifies this
      ensures Valid()
      ensures Tally(buckets, r.Fail?) == TallyAll(old(buckets), db.users, AcceptedRecords(db.requests))
      ensures r.Fail? ==> r.error == ServerError
      ensures r.Ok? ==> r.value == CategorySizes(buckets, Titles)
      ensures forall t :: t in old(buckets) ==> old(buckets)[t] <= buckets[t] && |old(buckets)[t]| <= |buckets[t]|
    {
      var records := AcceptedRecords(db.requests);
      ghost var start := buckets;
      var failed := false;
      var i := 0;
      while i < |records|
        invariant 0 <= i <= |records|
        invariant Tally(buckets, failed) == TallyAll(start, db.users, records[..i])
      {
        var threw := AddRecord(records[i], db.users);
        failed := failed || threw;
        assert records[..i + 1][..i] == records[..i];
        i := i + 1;
      }
      assert records[..i] == records;
      TallyGrows(start, db.users, records);
      if failed {
        r := Fail(ServerError);
      } else {
        var lengths := Sizes();
        r := Ok(lengths);
      }
    }
  }

  // ------------------------------------------------------------ handlers

  /** The `sendFriendRequest` handler: the reply's `success` flag, and the
      ledger after it. */
  method SendFriendRequest(db: Database, caller: Id, userId: Id, now: int) returns (r: Result<bool>)
    modifies db`requests
    ensures match Send(db.users, old(db.requests), caller, userId, now)
      case Fail(e) => r == Fail(e) && db.requests == old(db.requests)
      case Ok(AlreadySent) => r == Ok(false) && db.requests == old(db.requests)
      case Ok(Created(ledger)) => r == Ok(true) && db.requests == ledger
  {
    match Send(db.users, db.requests, caller, userId, now)
    case Fail(e) => r := Fail(e);
    case Ok(AlreadySent) => r := Ok(false);
    case Ok(Created(ledger)) =>
      db.requests := ledger;
      r := Ok(true);
  }

  /** The `acceptFriendRequest` handler. */
  method AcceptFriendRequest(db: Database, caller: Id, senderId: Id) returns (r: Result<()>)
    modifies db`requests
    ensures match Accept(old(db.requests), caller, senderId)
      case Fail(e) => r == Fail(e) && db.requests == old(db.requests)
      case Ok(ledger) => r == Ok(()) && db.requests == ledger
  {
    match Accept(db.requests, caller, senderId)
    case Fail(e) => r := Fail(e);
    case Ok(ledger) =>
      db.requests := ledger;
      r := Ok(());
  }

  /** The `deleteSuggestion` handler. */
  method DeleteSuggestion(db: Database, caller: Id, id: Id) returns (r: Result<()>)
    modifies db`users
    ensures match Dismiss(old(db.users), caller, id)
      case Fail(e) => r == Fail(e) && db.users == old(db.users)
      case Ok(users) => r == Ok(()) && db.users == users
  {
    match Dismiss(db.users, caller, id)
    case Fail(e) => r := Fail(e);
    case Ok(users) =>
      db.users := users;
      r := Ok(());
  }

  /** The `deleteRequest` handler: the same update as `deleteSuggestion`. The
      FriendRequest record itself stays as it is. */
  method DeleteRequest(db: Database, caller: Id, id: Id) returns (r: Result<()>)
    modifies db`users
    ensures match Dismiss(old(db.users), caller, id)
      case Fail(e) => r == Fail(e) && db.users == old(db.users)
      case Ok(users) => r == Ok(()) && db.users == users
  {
    r := DeleteSuggestion(db, caller, id);
  }
}
