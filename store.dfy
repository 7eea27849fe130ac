/** The document database the handlers share: the users, friend-request,
    chat and OTP collections, each in its natural (insertion) order, and
    `user.save()` with its validation, its pre-save hooks and its write. */
module Store {
  import opened Common
  import opened UserModel
  import opened FriendRequestModel
  import opened OtpModel

  /** A chat record. The Chat schema file is not part of this model; the
      shape is the one chatController.js queries and server.js creates. */
  datatype Chat = Chat(sender: Id, receiver: Id, message: string, timestamp: int)

  /** Where `save()` writes a user document: a new one is inserted at the
      end; an existing one replaces the stored record with its `_id` (an
      `updateOne`, which the find filter does not touch). None when the
      stored record has gone. */
  function WriteUser(users: seq<User>, u: User, isNew: bool): (r: Option<seq<User>>)
    ensures isNew ==> r == Some(users + [u])
    ensures !isNew && r.Some? ==>
              exists i :: 0 <= i < |users| && users[i].id == u.id && r.value == users[i := u]
    ensures !isNew && r.None? ==> forall v :: v in users ==> v.id != u.id
  {
    if isNew then Some(users + [u])
    else match FindFirst(users, (v: User) => v.id == u.id)
      case None => None
      case Some(i) => Some(users[i := u])
  }

  /** The `_id` index survives a write: replacing a record keeps its id, and
      a new document carries an id no stored record has. */
  lemma WriteUserKeepsUniqueIds(users: seq<User>, u: User, isNew: bool)
    requires UniqueIds(users)
    requires isNew ==> forall v :: v in users ==> v.id != u.id
    requires WriteUser(users, u, isNew).Some?
    ensures UniqueIds(WriteUser(users, u, isNew).value)
  {
    var w := WriteUser(users, u, isNew).value;
    if isNew {
      forall i, j | 0 <= i < j < |w| ensures w[i].id != w[j].id {
        if j == |users| {
          assert users[i] in users;
        }
      }
    }
  }

  class Database {
    var users: seq<User>
    var requests: seq<FriendRequest>
    var chats: seq<Chat>
    var otps: seq<Otp>

    constructor ()
      ensures users == [] && requests == [] && chats == [] && otps == []
    {
      users, requests, chats, otps := [], [], [], [];
    }

    /** `doc.save({ validateBeforeSave: validate })`: validation (when asked
        for) sees the document as assigned; then the two pre-save hooks run in
        order, and the result is written. `hash` stands for bcrypt. */
    method SaveUser(doc: UserDocument, validate: bool, hash: string -> string, now: int)
      returns (ok: bool)
      modifies this`users, doc
      ensures validate && !PasswordFieldsValid(old(doc.data)) ==>
        !ok && users == old(users) && doc.data == old(doc.data) &&
        doc.isNew == old(doc.isNew) && doc.modified == old(doc.modified)
      ensures !validate || PasswordFieldsValid(old(doc.data)) ==>
        doc.data == ChangedAtHook(HashHook(old(doc.data), old(doc.modified), hash),
                                  old(doc.modified), old(doc.isNew), now)
      ensures ok <==> (!validate || PasswordFieldsValid(old(doc.data))) &&
                      WriteUser(old(users), doc.data, old(doc.isNew)).Some?
      ensures ok ==> users == WriteUser(old(users), doc.data, old(doc.isNew)).value &&
                     !doc.isNew && doc.modified == {}
      ensures !ok ==> users == old(users)
    {
      if validate && !PasswordFieldsValid(doc.data) {
        return false;
      }
      doc.HashPasswordHook(hash);
      doc.PasswordChangedAtHook(now);
      var written := WriteUser(users, doc.data, doc.isNew);
      if written.None? {
        return false;
      }
      users := written.value;
      doc.isNew := false;
      doc.modified := {};
      ok := true;
    }
  }
}
