/** The User schema (models/user.model.js): the stored record, the schema's
    enums and defaults, the `find*` filter that hides soft-deleted users, the
    password-change check, and the Mongoose document whose pre-save hooks and
    reset-token method assign its fields. */
module UserModel {
  import opened Common

  /** The closed `title` enum, in declaration order. */
  const Titles: seq<string> := [
    "Data Scientist", "Full Stack Developer", "Frontend Developer",
    "Backend Developer", "Mobile App Developer", "DevOps Engineer",
    "UI/UX Designer", "QA", "Cloud Engineer", "Other"
  ]
  const DefaultTitle: string := "Other"

  const DefaultRole: string := "user"

  const DefaultImageUrl: string :=
    "https://res.cloudinary.com/dx2vel6vy/image/upload/v1710573655/default_uv0cmg.png"

  const PasswordMinLength: nat := 8

  /** JavaScript's `length` of a string, which `minlength` checks: UTF-16
      code units, two for a character outside the Basic Multilingual Plane. */
  function Utf16Length(s: string): (n: nat)
    ensures |s| <= n <= 2 * |s|
  {
    if |s| == 0 then 0
    else (if s[0] as int > 0xFFFF then 2 else 1) + Utf16Length(s[1..])
  }

  /** Four emoji are eight code units long, so they pass `minlength: 8`. */
  lemma Utf16LengthCountsSurrogates()
    ensures Utf16Length("\U{1F600}\U{1F600}\U{1F600}\U{1F600}") == 8
    ensures |"\U{1F600}\U{1F600}\U{1F600}\U{1F600}"| == 4
  {
    var s := "\U{1F600}\U{1F600}\U{1F600}\U{1F600}";
    assert s[1..][1..][1..][1..] == [];
  }

  /** `Date.now() + 1000 * 60 * 1000`: 1000 minutes, although the source's
      comment speaks of ten. */
  const ResetTokenLifetimeMs: int := 1000 * 60 * 1000

  /** `Date.now() - 1000` in the second pre-save hook. */
  const ChangedAtSlackMs: int := 1000

  /** A stored user. Dates are integer milliseconds since the epoch.
      Profile lists (languages, frameworks, hobbies, ...) are not modelled. */
  datatype User = User(
    id: Id,
    name: string,
    email: string,
    password: string,
    passwordConfirm: Option<string>,
    role: string,
    title: string,
    imageUrl: string,
    rejectedUsers: seq<Id>,
    passwordChangedAt: Option<int>,
    passwordResetToken: Option<string>,
    passwordResetExpires: Option<int>,
    active: bool)

  /** The `pre(/^find/)` hook adds `{ active: { $ne: false } }` to every
      find query, so only active users ever match. */
  predicate Resolves(u: User, id: Id) {
    u.id == id && u.active
  }

  /** The position of the first active user with that id. */
  function IndexById(users: seq<User>, id: Id): (r: Option<nat>)
    ensures r.Some? ==> r.value < |users| && Resolves(users[r.value], id)
    ensures r.Some? ==> forall j :: 0 <= j < r.value ==> !Resolves(users[j], id)
    ensures r.None? <==> forall u :: u in users ==> !Resolves(u, id)
  {
    FindFirst(users, (u: User) => Resolves(u, id))
  }

  /** `User.findById(id)`: the first active user with that id. */
  function FindById(users: seq<User>, id: Id): (r: Option<User>)
    ensures r.Some? ==> r.value in users && r.value.id == id && r.value.active
    ensures r.None? <==> forall u :: u in users ==> !(u.id == id && u.active)
  {
    match IndexById(users, id)
    case None => None
    case Some(i) => Some(users[i])
  }

  /** `User.findOne({ email })`: the first active user with that email. */
  function FindByEmail(users: seq<User>, email: string): (r: Option<User>)
    ensures r.Some? ==> r.value in users && r.value.email == email && r.value.active
    ensures r.None? <==> forall u :: u in users ==> !(u.email == email && u.active)
  {
    match FindFirst(users, (u: User) => u.email == email && u.active)
    case None => None
    case Some(i) => Some(users[i])
  }

  /** The `_id` index: no two stored users share an id. */
  predicate UniqueIds(users: seq<User>) {
    forall i, j :: 0 <= i < j < |users| ==> users[i].id != users[j].id
  }

  /** `User.findByIdAndUpdate(id, { active: false })` (deleteMe, deleteUser).
      The query passes through the find filter, so only an active user is
      touched. */
  function SoftDelete(users: seq<User>, id: Id): (r: seq<User>)
    ensures |r| == |users|
  {
    match IndexById(users, id)
    case None => users
    case Some(i) => users[i := users[i].(active := false)]
  }

  /** A soft-deleted user never resolves again, and every other user resolves
      exactly as before. */
  lemma SoftDeletedNeverResolves(users: seq<User>, id: Id, other: Id)
    requires UniqueIds(users)
    ensures FindById(SoftDelete(users, id), id).None?
    ensures other != id ==> FindById(SoftDelete(users, id), other) == FindById(users, other)
  {
    var r := SoftDelete(users, id);
    match IndexById(users, id)
    case None =>
    case Some(i) =>
      forall u | u in r ensures !Resolves(u, id) {
        var k :| 0 <= k < |r| && r[k] == u;
        if k != i { assert users[k].id != users[i].id || k == i; }
      }
      if other != id {
        forall j | 0 <= j < |r| ensures Resolves(r[j], other) <==> Resolves(users[j], other) {
          if j == i { assert users[i].id == id; }
        }
        var a := IndexById(users, other);
        var b := IndexById(r, other);
        if a.Some? {
          FindFirstUnique(r, (u: User) => Resolves(u, other), a.value);
        } else {
          assert forall u :: u in r ==> !Resolves(u, other) by {
            forall u | u in r ensures !Resolves(u, other) {
              var k :| 0 <= k < |r| && r[k] == u;
              assert users[k] in users;
            }
          }
        }
      }
  }

  /** `parseInt(ms / 1000, 10)`: JavaScript division followed by truncation
      toward zero. */
  function Seconds(ms: int): int {
    if ms >= 0 then ms / 1000 else -((-ms) / 1000)
  }

  /** For a time at or after the epoch: second `t` comes before the
      truncated second of `ms` exactly when the whole of second `t` ends at or
      before `ms`. */
  lemma SecondsBound(ms: int, t: int)
    ensures ms >= 0 ==> (t < Seconds(ms) <==> (t + 1) * 1000 <= ms)
  {
    if ms >= 0 {
      var q := ms / 1000;
      assert ms == q * 1000 + ms % 1000 && 0 <= ms % 1000 < 1000;
      if t < q {
        assert (t + 1) * 1000 <= q * 1000;
      } else {
        assert q * 1000 <= t * 1000;
      }
    }
  }

  /** `changedPasswordAfter(JWTTimestamp)`: a missing `passwordChangedAt` never
      invalidates a token; otherwise the token's issue second must not be
      before the (truncated) second of the change. For a change at or after
      the epoch, a token issued at second `jwtTimestamp` is rejected exactly
      when the whole of that second lies before the change. */
  function ChangedPasswordAfter(u: User, jwtTimestamp: int): (changed: bool)
    ensures changed ==> u.passwordChangedAt.Some?
    ensures u.passwordChangedAt.Some? && u.passwordChangedAt.value >= 0 ==>
      (changed <==> (jwtTimestamp + 1) * 1000 <= u.passwordChangedAt.value)
  {
    match u.passwordChangedAt
    case None => false
    case Some(ms) =>
      SecondsBound(ms, jwtTimestamp);
      jwtTimestamp < Seconds(ms)
  }

  /** What `user.save()` checks before its hooks run (resetPassword is the
      one caller that validates): `passwordConfirm` is required and its
      validator demands `this.password === pc`; `password` has `minlength: 8`. */
  function PasswordFieldsValid(u: User): (valid: bool)
    ensures valid ==> u.passwordConfirm.Some? && Truthy(u.passwordConfirm.value)
  {
    Utf16Length(u.password) >= PasswordMinLength && u.passwordConfirm == Some(u.password)
  }

  /** Paths that `isModified` can report. */
  datatype Path =
    | PasswordPath
    | PasswordConfirmPath
    | RejectedUsersPath
    | ResetTokenPath
    | ResetExpiresPath

  /** The first pre-save hook: hash the password when it was modified, unless
      `rejectedUsers` was modified in the same save; then drop a truthy
      `passwordConfirm`. */
  function HashHook(u: User, modified: set<Path>, hash: string -> string): (r: User)
    ensures r.(password := u.password, passwordConfirm := u.passwordConfirm) == u
    ensures PasswordPath !in modified ==> r == u
  {
    if PasswordPath !in modified || RejectedUsersPath in modified then u
    else
      var hashed := u.(password := hash(u.password));
      if hashed.passwordConfirm.Some? && Truthy(hashed.passwordConfirm.value)
      then hashed.(passwordConfirm := None)
      else hashed
  }

  /** The second pre-save hook: on a modified password of a document that is
      not new, record the change one second in the past. */
  function ChangedAtHook(u: User, modified: set<Path>, isNew: bool, now: int): (r: User)
    ensures r.(passwordChangedAt := u.passwordChangedAt) == u
    ensures PasswordPath !in modified || isNew ==> r == u
    ensures PasswordPath in modified && !isNew ==> r.passwordChangedAt == Some(now - ChangedAtSlackMs)
  {
    if PasswordPath !in modified || isNew then u
    else u.(passwordChangedAt := Some(now - ChangedAtSlackMs))
  }

  /** The hash hook leaves the password in clear text when `rejectedUsers`
      was modified in the same save; otherwise a modified password is stored
      hashed, with at most an empty confirmation beside it. */
  lemma HashHookOutcome(u: User, modified: set<Path>, hash: string -> string)
    ensures RejectedUsersPath in modified ==> HashHook(u, modified, hash) == u
    ensures PasswordPath in modified && RejectedUsersPath !in modified ==>
      HashHook(u, modified, hash).password == hash(u.password) &&
      (HashHook(u, modified, hash).passwordConfirm.None? || HashHook(u, modified, hash).passwordConfirm == Some(""))
  {
  }

  /** Once a stored password change passes through the second hook at time
      `now` (at least one second after the epoch), every token issued in a
      second that ends at or before `now - 1000` is rejected by
      `changedPasswordAfter`, and every later one is accepted. */
  lemma ChangedAtHookRevokes(u: User, modified: set<Path>, now: int, t: int)
    requires PasswordPath in modified && now >= ChangedAtSlackMs
    ensures ChangedPasswordAfter(ChangedAtHook(u, modified, false, now), t)
        <==> (t + 1) * 1000 <= now - ChangedAtSlackMs
  {
  }

  /** A confirmation that passed validation is never stored: the hash hook
      drops it whenever it hashes the password. */
  lemma ValidatedConfirmNotStored(u: User, modified: set<Path>, hash: string -> string)
    requires PasswordFieldsValid(u)
    requires PasswordPath in modified && RejectedUsersPath !in modified
    ensures HashHook(u, modified, hash).passwordConfirm.None?
    ensures HashHook(u, modified, hash).password == hash(u.password)
  {
  }

  /** A Mongoose user document: a record being edited in memory, whether it
      has been saved yet, and which paths were assigned since it was loaded. */
  class UserDocument {
    var data: User
    var isNew: bool
    var modified: set<Path>

    /** `new User({...})`: the schema's defaults fill `role`, `title`,
        `cloudinaryImageUrl`, `rejectedUsers` and `active`. */
    constructor New(id: Id, name: string, email: string, password: string,
                    passwordConfirm: string, title: Option<string>)
      ensures data.id == id && data.name == name && data.email == email
      ensures data.password == password && data.passwordConfirm == Some(passwordConfirm)
      ensures data.title == (if title.Some? then title.value else DefaultTitle)
      ensures data.role == DefaultRole && data.imageUrl == DefaultImageUrl
      ensures data.rejectedUsers == [] && data.active
      ensures data.passwordChangedAt.None? && data.passwordResetToken.None? && data.passwordResetExpires.None?
      ensures isNew && modified == {PasswordPath, PasswordConfirmPath}
    {
      data := User(id, name, email, password, Some(passwordConfirm), DefaultRole,
                   if title.Some? then title.value else DefaultTitle, DefaultImageUrl,
                   [], None, None, None, true);
      isNew := true;
      modified := {PasswordPath, PasswordConfirmPath};
    }

    /** A document hydrated by a find: nothing modified yet. */
    constructor Load(u: User)
      ensures data == u && !isNew && modified == {}
    {
      data := u;
      isNew := false;
      modified := {};
    }

    /** `user.password = p`; Mongoose marks the path only when the value changes. */
    method SetPassword(p: string)
      modifies this
      ensures data == old(data).(password := p) && isNew == old(isNew)
      ensures modified == old(modified) + (if p != old(data.password) then {PasswordPath} else {})
    {
      if p != data.password {
        modified := modified + {PasswordPath};
      }
      data := data.(password := p);
    }

    /** `user.passwordConfirm = c`. */
    method SetPasswordConfirm(c: Option<string>)
      modifies this
      ensures data == old(data).(passwordConfirm := c) && isNew == old(isNew)
      ensures modified == old(modified) + (if c != old(data.passwordConfirm) then {PasswordConfirmPath} else {})
    {
      if c != data.passwordConfirm {
        modified := modified + {PasswordConfirmPath};
      }
      data := data.(passwordConfirm := c);
    }

    /** `user.passwordResetToken = undefined`. */
    method ClearPasswordResetToken()
      modifies this
      ensures data == old(data).(passwordResetToken := None) && isNew == old(isNew)
      ensures modified == old(modified) + (if old(data.passwordResetToken).Some? then {ResetTokenPath} else {})
    {
      if data.passwordResetToken.Some? {
        modified := modified + {ResetTokenPath};
      }
      data := data.(passwordResetToken := None);
    }

    /** `user.passwordResetExpires = undefined`. */
    method ClearPasswordResetExpires()
      modifies this
      ensures data == old(data).(passwordResetExpires := None) && isNew == old(isNew)
      ensures modified == old(modified) + (if old(data.passwordResetExpires).Some? then {ResetExpiresPath} else {})
    {
      if data.passwordResetExpires.Some? {
        modified := modified + {ResetExpiresPath};
      }
      data := data.(passwordResetExpires := None);
    }

    /** `createPasswordResetToken()`: `rawToken` stands for
        `randomBytes(32).toString("hex")` and `sha` for the SHA-256 hex digest.
        The document keeps only the digest; the plain token is returned for
        the e-mail. */
    method CreatePasswordResetToken(rawToken: string, sha: string -> string, now: int)
      returns (token: string)
      modifies this
      ensures token == rawToken
      ensures data == old(data).(passwordResetToken := Some(sha(token)),
                                 passwordResetExpires := Some(now + ResetTokenLifetimeMs))
      ensures isNew == old(isNew) && modified == old(modified) + {ResetTokenPath, ResetExpiresPath}
    {
      token := rawToken;
      data := data.(passwordResetToken := Some(sha(rawToken)));
      data := data.(passwordResetExpires := Some(now + ResetTokenLifetimeMs));
      modified := modified + {ResetTokenPath, ResetExpiresPath};
    }

    /** The first `pre("save")` hook; `hash` stands for `bcrypt.hash(_, 12)`. */
    method HashPasswordHook(hash: string -> string)
      modifies this
      ensures data == HashHook(old(data), old(modified), hash)
      ensures isNew == old(isNew) && modified == old(modified)
    {
      if PasswordPath !in modified {
        return;
      }
      if RejectedUsersPath in modified {
        return;
      }
      data := data.(password := hash(data.password));
      if data.passwordConfirm.Some? && Truthy(data.passwordConfirm.value) && PasswordPath in modified {
        data := data.(passwordConfirm := None);
      }
    }

    /** The second `pre("save")` hook. */
    method PasswordChangedAtHook(now: int)
      modifies this
      ensures data == ChangedAtHook(old(data), old(modified), old(isNew), now)
      ensures isNew == old(isNew) && modified == old(modified)
    {
      if PasswordPath !in modified || isNew {
        return;
      }
      data := data.(passwordChangedAt := Some(now - ChangedAtSlackMs));
    }
  }
}
