/** The account decisions of controllers/authController.js: login, the
    `protect` / `isLoggedIn` guard chains, `restrictTo`, one-time codes,
    the forgot/reset password flow and soft deletion. JWT signing and
    verification, bcrypt, SHA-256, the random generators, the clock and the
    outcome of sending an e-mail are parameters. */
module AuthController {
  import opened Common
  import opened UserModel
  import opened OtpModel
  import opened Store

  // ---------------------------------------------------------------- login

  /** `login`: a missing email or password is a 400; an unknown email or a
      password that `compare` (bcrypt) rejects is a 401; otherwise the token
      `sign` issues for the user's id. */
  function Login(users: seq<User>, email: string, password: string,
                 compare: (string, string) -> bool, sign: Id -> string): (r: Result<string>)
    ensures !Truthy(email) || !Truthy(password) ==> r == Fail(BadRequest)
    ensures r == Fail(Unauthorized) <==>
      Truthy(email) && Truthy(password) &&
      (FindByEmail(users, email).None? || !compare(password, FindByEmail(users, email).value.password))
    ensures r.Ok? <==>
      Truthy(email) && Truthy(password) &&
      FindByEmail(users, email).Some? && compare(password, FindByEmail(users, email).value.password)
    ensures r.Ok? ==> r.value == sign(FindByEmail(users, email).value.id)
  {
    if !Truthy(email) || !Truthy(password) then Fail(BadRequest)
    else match FindByEmail(users, email)
      case None => Fail(Unauthorized)
      case Some(u) => if !compare(password, u.password) then Fail(Unauthorized) else Ok(sign(u.id))
  }

  // ------------------------------------------------- protect / isLoggedIn

  /** The payload `jwt.verify` returns: the user id and the issue time in
      seconds. `verify` returns None where it would throw. */
  datatype Claims = Claims(id: Id, iat: int)

  /** Where the guard chain stops, in the order it checks. */
  datatype Decision = NoToken | BadToken | UserGone | PasswordChanged | Granted(user: User)

  /** The checks `protect` and `isLoggedIn` share: a token at all, then a
      verifiable token, then a user that still resolves, then a password not
      changed since the token was issued. */
  function Guard(users: seq<User>, token: string, verify: string -> Option<Claims>): (d: Decision)
    ensures d == NoToken <==> !Truthy(token)
    ensures d == BadToken <==> Truthy(token) && verify(token).None?
    ensures d == UserGone <==>
      Truthy(token) && verify(token).Some? && FindById(users, verify(token).value.id).None?
    ensures d == PasswordChanged <==>
      Truthy(token) && verify(token).Some? && FindById(users, verify(token).value.id).Some? &&
      ChangedPasswordAfter(FindById(users, verify(token).value.id).value, verify(token).value.iat)
    ensures d.Granted? ==>
      verify(token).Some? && d.user.id == verify(token).value.id && d.user.active && d.user in users &&
      !ChangedPasswordAfter(d.user, verify(token).value.iat)
  {
    if !Truthy(token) then NoToken
    else match verify(token)
      case None => BadToken
      case Some(claims) =>
        match FindById(users, claims.id)
        case None => UserGone
        case Some(u) => if ChangedPasswordAfter(u, claims.iat) then PasswordChanged else Granted(u)
  }

  /** `protect`: each refusal is a 401, except a token that fails to verify,
      whose exception reaches the error middleware. On success the user is
      attached to the request. */
  function Protect(users: seq<User>, token: string, verify: string -> Option<Claims>): (r: Result<User>)
    ensures r.Ok? <==> Guard(users, token, verify).Granted?
    ensures r.Ok? ==> r.value == Guard(users, token, verify).user
    ensures r == Fail(ServerError) <==> Guard(users, token, verify) == BadToken
    ensures r.Fail? ==> r.error in {Unauthorized, ServerError}
  {
    match Guard(users, token, verify)
    case NoToken => Fail(Unauthorized)
    case BadToken => Fail(ServerError)
    case UserGone => Fail(Unauthorized)
    case PasswordChanged => Fail(Unauthorized)
    case Granted(u) => Ok(u)
  }

  /** `isLoggedIn`: the status code of its reply (the cookie is the token). */
  function IsLoggedIn(users: seq<User>, cookie: string, verify: string -> Option<Claims>): (status: nat)
    ensures status == 200 <==> Guard(users, cookie, verify).Granted?
    ensures status == 500 <==> Guard(users, cookie, verify) == BadToken
    ensures status in {200, 401, 500}
  {
    match Guard(users, cookie, verify)
    case NoToken => 401
    case BadToken => 500
    case UserGone => 401
    case PasswordChanged => 401
    case Granted(_) => 200
  }

  /** The two guards agree: `isLoggedIn`'s status is 200 exactly where
      `protect` lets the request through, and otherwise the status code of
      the error `protect` hands on. */
  lemma GuardsAgree(users: seq<User>, token: string, verify: string -> Option<Claims>)
    ensures IsLoggedIn(users, token, verify) ==
      match Protect(users, token, verify)
      case Ok(_) => 200
      case Fail(e) => StatusCode(e)
  {
  }

  /** A password change saved at `now` (the second pre-save hook stamps
      `now - 1000`) refuses every token issued in a whole second that ended
      at or before that stamp, in both guards. */
  lemma PasswordChangeRevokesTokens(users: seq<User>, token: string, verify: string -> Option<Claims>, now: int)
    requires Truthy(token) && verify(token).Some?
    requires FindById(users, verify(token).value.id).Some?
    requires now >= ChangedAtSlackMs
    requires FindById(users, verify(token).value.id).value.passwordChangedAt == Some(now - ChangedAtSlackMs)
    requires (verify(token).value.iat + 1) * 1000 <= now - ChangedAtSlackMs
    ensures Guard(users, token, verify) == PasswordChanged
    ensures Protect(users, token, verify) == Fail(Unauthorized)
    ensures IsLoggedIn(users, token, verify) == 401
  {
  }

  /** `restrictTo(...roles)`: the request passes iff the attached user's role
      is one of `roles`; otherwise 403. */
  function RestrictTo(roles: seq<string>, role: string): (r: Result<()>)
    ensures r.Ok? <==> role in roles
    ensures r.Fail? ==> r.error == Forbidden
  {
    if role in roles then Ok(()) else Fail(Forbidden)
  }

  /** A user with the schema's default role passes a route restricted to
      the roles of the schema only when "user" is among the allowed roles. */
  lemma DefaultRoleRestricted(roles: seq<string>)
    ensures RestrictTo(roles, DefaultRole).Ok? <==> "user" in roles
    ensures RestrictTo(["admin"], DefaultRole) == Fail(Forbidden)
  {
  }

  // ---------------------------------------------------- one-time codes

  const OtpLifetimeMs: int := 10 * 60 * 1000
  /** `randomInt(100000, 999999)`: the upper bound is exclusive. */
  const OtpLow: nat := 100000
  const OtpHigh: nat := 999999

  function DigitChar(d: nat): (c: char)
    requires d < 10
    ensures '0' <= c <= '9'
  {
    ('0' as int + d) as char
  }

  predicate AllDigits(s: string) {
    forall k :: 0 <= k < |s| ==> '0' <= s[k] <= '9'
  }

  /** `Number.prototype.toString()` for a non-negative integer. */
  function DecimalString(n: nat): (s: string)
    ensures |s| >= 1 && AllDigits(s)
  {
    if n < 10 then [DigitChar(n)] else DecimalString(n / 10) + [DigitChar(n % 10)]
  }

  /** The value of a string of decimal digits. */
  function ParseDecimal(s: string): nat
    requires AllDigits(s)
  {
    if |s| == 0 then 0
    else 10 * ParseDecimal(s[..|s| - 1]) + (s[|s| - 1] as int - '0' as int)
  }

  lemma {:induction false} ParseDecimalString(n: nat)
    ensures ParseDecimal(DecimalString(n)) == n
  {
    var s := DecimalString(n);
    if n >= 10 {
      ParseDecimalString(n / 10);
      assert s[..|s| - 1] == DecimalString(n / 10);
    }
  }

  function Pow10(k: nat): (p: nat)
    ensures p >= 1
  {
    if k == 0 then 1 else 10 * Pow10(k - 1)
  }

  lemma {:induction false} DecimalLength(n: nat, k: nat)
    requires k >= 1 && Pow10(k - 1) <= n < Pow10(k)
    ensures |DecimalString(n)| == k
  {
    if k > 1 {
      DecimalLength(n / 10, k - 1);
    }
  }

  /** The code `otpSending` stores for the random value `code`: six decimal
      digits that read back as `code`. */
  function OtpCode(code: nat): (s: string)
    requires OtpLow <= code < OtpHigh
    ensures |s| == 6 && AllDigits(s) && ParseDecimal(s) == code
  {
    assert Pow10(5) == 100000 && Pow10(6) == 1000000 by {
      assert Pow10(1) == 10 && Pow10(2) == 100 && Pow10(3) == 1000 && Pow10(4) == 10000;
    }
    DecimalLength(code, 6);
    ParseDecimalString(code);
    DecimalString(code)
  }

  /** `otpSending`: a new record on every call, stamped to expire ten minutes
      after `now`; a missing phone number fails the `required` validator and
      the error reaches the error middleware. The user id is read but not
      stored. */
  function Issue(otps: seq<Otp>, phone: string, code: nat, now: int): (r: Result<seq<Otp>>)
    requires OtpLow <= code < OtpHigh
    ensures r.Ok? <==> Truthy(phone)
    ensures r.Fail? ==> r.error == ServerError
    ensures r.Ok? ==> |r.value| == |otps| + 1 && r.value[..|otps|] == otps
    ensures r.Ok? ==>
      var o := r.value[|otps|];
      RequiredPresent(o) && o.user.None? && o.phone == phone &&
      o.otp == Some(OtpCode(code)) && o.otpExpiration == Some(now + OtpLifetimeMs)
  {
    match CreateOtp(phone, OtpCode(code), now + OtpLifetimeMs)
    case Fail(e) => Fail(e)
    case Ok(o) => Ok(otps + [o])
  }

  predicate OtpMatches(o: Otp, phone: string, code: string) {
    o.phone == phone && o.otp == Some(code)
  }

  /** `user.otpExpiration < Date.now()`; a missing expiration compares false. */
  predicate Expired(o: Otp, now: int) {
    o.otpExpiration.Some? && o.otpExpiration.value < now
  }

  /** `OTP.findOne({ phone, otp })`. */
  function FirstOtp(otps: seq<Otp>, phone: string, code: string): (r: Option<nat>)
    ensures r.Some? ==> r.value < |otps| && OtpMatches(otps[r.value], phone, code)
    ensures r.Some? ==> forall j :: 0 <= j < r.value ==> !OtpMatches(otps[j], phone, code)
    ensures r.None? <==> forall o :: o in otps ==> !OtpMatches(o, phone, code)
  {
    FindFirst(otps, (o: Otp) => OtpMatches(o, phone, code))
  }

  /** `verifyOTP`: no matching record, or one whose expiration is strictly
      before `now`, is a 400 with nothing changed; otherwise that record's
      code and expiration are cleared and it is saved without validation. */
  function Verify(otps: seq<Otp>, phone: string, code: string, now: int): (r: Result<seq<Otp>>)
    ensures r.Fail? ==> r.error == BadRequest
    ensures r.Fail? <==>
      FirstOtp(otps, phone, code).None? || Expired(otps[FirstOtp(otps, phone, code).value], now)
    ensures r.Ok? ==>
      var i := FirstOtp(otps, phone, code).value;
      r.value == otps[i := otps[i].(otp := None, otpExpiration := None)] && !RequiredPresent(r.value[i])
  {
    match FirstOtp(otps, phone, code)
    case None => Fail(BadRequest)
    case Some(i) =>
      if Expired(otps[i], now) then Fail(BadRequest)
      else Ok(otps[i := otps[i].(otp := None, otpExpiration := None)])
  }

  function CountOtp(otps: seq<Otp>, phone: string, code: string): (n: nat)
    ensures n == 0 <==> forall o :: o in otps ==> !OtpMatches(o, phone, code)
  {
    if |otps| == 0 then 0
    else
      assert forall o :: o in otps <==> o == otps[0] || o in otps[1..];
      (if OtpMatches(otps[0], phone, code) then 1 else 0) + CountOtp(otps[1..], phone, code)
  }

  lemma {:induction false} CountOtpUpdate(otps: seq<Otp>, i: nat, x: Otp, phone: string, code: string)
    requires i < |otps|
    ensures CountOtp(otps[i := x], phone, code)
         == CountOtp(otps, phone, code)
            - (if OtpMatches(otps[i], phone, code) then 1 else 0)
            + (if OtpMatches(x, phone, code) then 1 else 0)
  {
    if i > 0 {
      assert otps[i := x][1..] == otps[1..][i - 1 := x];
      CountOtpUpdate(otps[1..], i - 1, x, phone, code);
    } else {
      assert otps[i := x][1..] == otps[1..];
    }
  }

  /** A successful verification uses up one matching record; when it was
      the only one, the same code is refused afterwards, at any time. */
  lemma VerifySingleUse(otps: seq<Otp>, phone: string, code: string, now: int, later: int)
    requires Verify(otps, phone, code, now).Ok?
    ensures CountOtp(Verify(otps, phone, code, now).value, phone, code) == CountOtp(otps, phone, code) - 1
    ensures CountOtp(otps, phone, code) == 1 ==>
      Verify(Verify(otps, phone, code, now).value, phone, code, later) == Fail(BadRequest)
  {
    var i := FirstOtp(otps, phone, code).value;
    CountOtpUpdate(otps, i, otps[i].(otp := None, otpExpiration := None), phone, code);
  }

  /** A code issued at `now` still verifies at its expiration instant and
      not one millisecond later, when it is the first record with that phone
      and code. */
  lemma IssuedCodeLifetime(otps: seq<Otp>, phone: string, code: nat, now: int)
    requires OtpLow <= code < OtpHigh && Truthy(phone)
    requires forall o :: o in otps ==> !OtpMatches(o, phone, OtpCode(code))
    ensures Verify(Issue(otps, phone, code, now).value, phone, OtpCode(code), now + OtpLifetimeMs).Ok?
    ensures Verify(Issue(otps, phone, code, now).value, phone, OtpCode(code), now + OtpLifetimeMs + 1)
         == Fail(BadRequest)
  {
    var after := Issue(otps, phone, code, now).value;
    assert after == otps + [after[|otps|]];
    assert OtpMatches(after[|otps|], phone, OtpCode(code));
    FindFirstUnique(after, (o: Otp) => OtpMatches(o, phone, OtpCode(code)), |otps|);
  }

  // ------------------------------------------------ password reset flow

  /** Whether `resetPassword`'s query selects `u` for the digest `hashed` at
      time `now`: the stored digest is equal and the expiry strictly later. */
  predicate ResetMatches(u: User, hashed: string, now: int) {
    u.active && u.passwordResetToken == Some(hashed) &&
    u.passwordResetExpires.Some? && u.passwordResetExpires.value > now
  }

  function ResetLookup(users: seq<User>, hashed: string, now: int): (r: Option<nat>)
    ensures r.Some? ==> r.value < |users| && ResetMatches(users[r.value], hashed, now)
    ensures r.None? <==> forall u :: u in users ==> !ResetMatches(u, hashed, now)
  {
    FindFirst(users, (u: User) => ResetMatches(u, hashed, now))
  }

  /** The record `forgotPassword` writes after `createPasswordResetToken`:
      the digest of the plain token, usable strictly before
      `now + 60,000,000` ms. */
  function WithResetToken(u: User, rawToken: string, sha: string -> string, now: int): (r: User)
    ensures forall t :: ResetMatches(r, sha(rawToken), t) <==> u.active && t < now + ResetTokenLifetimeMs
    ensures u == r.(passwordResetToken := u.passwordResetToken, passwordResetExpires := u.passwordResetExpires)
  {
    u.(passwordResetToken := Some(sha(rawToken)), passwordResetExpires := Some(now + ResetTokenLifetimeMs))
  }

  /** The record after the e-mail failed: the handler clears the expiry but
      assigns the other `undefined` to a property of the model class, so the
      stored digest stays. No reset can select it. */
  function AfterFailedEmail(u: User, rawToken: string, sha: string -> string, now: int): (r: User)
    ensures r.passwordResetToken == Some(sha(rawToken))
    ensures forall h, t :: !ResetMatches(r, h, t)
  {
    WithResetToken(u, rawToken, sha, now).(passwordResetExpires := None)
  }

  lemma WriteExisting(users: seq<User>, u: User, v: User)
    requires u in users && v.id == u.id
    ensures WriteUser(users, v, false).Some?
    ensures v in WriteUser(users, v, false).value
  {
    var i :| 0 <= i < |users| && users[i] == u;
    var w := WriteUser(users, v, false).value;
    var j :| 0 <= j < |users| && users[j].id == v.id && w == users[j := v];
    assert w[j] == v;
  }

  /** `forgotPassword`: an unknown email is a 404. Otherwise the reset token
      is issued and saved without validation; `emailSent` is the outcome of
      sending it. When sending failed, the expiry is cleared, the document is
      saved again and the error reaches the error middleware. */
  method ForgotPassword(db: Database, email: string, rawToken: string, sha: string -> string,
                        hash: string -> string, emailSent: bool, now: int)
    returns (r: Result<string>)
    modifies db`users
    ensures FindByEmail(old(db.users), email).None? ==> r == Fail(NotFound) && db.users == old(db.users)
    ensures FindByEmail(old(db.users), email).Some? ==>
      var u := FindByEmail(old(db.users), email).value;
      var issued := WithResetToken(u, rawToken, sha, now);
      WriteUser(old(db.users), issued, false).Some? &&
      (emailSent ==> r == Ok(rawToken) && db.users == WriteUser(old(db.users), issued, false).value) &&
      (!emailSent ==>
         r == Fail(ServerError) &&
         WriteUser(WriteUser(old(db.users), issued, false).value, AfterFailedEmail(u, rawToken, sha, now), false).Some? &&
         db.users == WriteUser(WriteUser(old(db.users), issued, false).value,
                               AfterFailedEmail(u, rawToken, sha, now), false).value)
  {
    var found := FindByEmail(db.users, email);
    if found.None? {
      return Fail(NotFound);
    }
    var u := found.value;
    var doc := new UserDocument.Load(u);
    var token := doc.CreatePasswordResetToken(rawToken, sha, now);
    WriteExisting(db.users, u, WithResetToken(u, rawToken, sha, now));
    var ok := db.SaveUser(doc, false, hash, now);
    assert ok;
    if emailSent {
      return Ok(token);
    }
    ghost var written := db.users;
    doc.ClearPasswordResetExpires();
    WriteExisting(written, WithResetToken(u, rawToken, sha, now), AfterFailedEmail(u, rawToken, sha, now));
    ok := db.SaveUser(doc, false, hash, now);
    assert ok;
    r := Fail(ServerError);
  }

  /** The record `resetPassword` saves: the new password and confirmation,
      both reset fields cleared, then the two pre-save hooks. The password
      path counts as modified only when the new password differs from the
      stored hash. */
  function AfterReset(u: User, newPassword: string, confirm: Option<string>,
                      hash: string -> string, now: int): (r: User)
    ensures r.passwordResetToken.None? && r.passwordResetExpires.None?
    ensures newPassword != u.password ==>
      r.password == hash(newPassword) && r.passwordChangedAt == Some(now - ChangedAtSlackMs) &&
      (r.passwordConfirm.Some? ==> confirm == Some(""))
    ensures newPassword == u.password ==> r.password == u.password && r.passwordChangedAt == u.passwordChangedAt
    ensures newPassword == u.password || confirm.None? || confirm == Some("") ==> r.passwordConfirm == confirm
    ensures u == r.(password := u.password, passwordConfirm := u.passwordConfirm, passwordChangedAt := u.passwordChangedAt,
                    passwordResetToken := u.passwordResetToken, passwordResetExpires := u.passwordResetExpires)
  {
    var edited := u.(password := newPassword, passwordConfirm := confirm,
                       passwordResetToken := None, passwordResetExpires := None);
    var modified := if newPassword != u.password then {PasswordPath} else {};
    ChangedAtHook(HashHook(edited, modified, hash), modified, false, now)
  }

  /** After a reset, the same token selects nobody, and tokens issued
      strictly before the stamped change are refused by the guards. */
  lemma ResetIsFinal(u: User, newPassword: string, confirm: Option<string>, hash: string -> string,
                     now: int, hashed: string, t: int, iat: int)
    requires newPassword != u.password && now >= ChangedAtSlackMs
    ensures !ResetMatches(AfterReset(u, newPassword, confirm, hash, now), hashed, t)
    ensures ChangedPasswordAfter(AfterReset(u, newPassword, confirm, hash, now), iat) <==>
      (iat + 1) * 1000 <= now - ChangedAtSlackMs
  {
  }

  /** The four assignments `resetPassword` makes to a freshly loaded
      document, and the paths they mark as modified. */
  method AssignReset(doc: UserDocument, newPassword: string, confirm: Option<string>)
    modifies doc
    ensures doc.data == old(doc.data).(password := newPassword, passwordConfirm := confirm,
                                       passwordResetToken := None, passwordResetExpires := None)
    ensures doc.isNew == old(doc.isNew)
    ensures PasswordPath in doc.modified <==> PasswordPath in old(doc.modified) || newPassword != old(doc.data).password
    ensures RejectedUsersPath in doc.modified <==> RejectedUsersPath in old(doc.modified)
  {
    doc.SetPassword(newPassword);
    doc.SetPasswordConfirm(confirm);
    doc.ClearPasswordResetToken();
    doc.ClearPasswordResetExpires();
  }

  /** The hooks only look at whether the password and `rejectedUsers` paths
      were modified, so any set of paths that agrees on those two gives the
      record `AfterReset` describes. */
  lemma ResetHooks(u: User, newPassword: string, confirm: Option<string>, hash: string -> string,
                   now: int, modified: set<Path>)
    requires PasswordPath in modified <==> newPassword != u.password
    requires RejectedUsersPath !in modified
    ensures ChangedAtHook(HashHook(u.(password := newPassword, passwordConfirm := confirm,
                                      passwordResetToken := None, passwordResetExpires := None),
                                   modified, hash), modified, false, now)
            == AfterReset(u, newPassword, confirm, hash, now)
  {
  }

  /** `resetPassword`: no record selected by the digest of `rawToken` is an
      error for the error middleware (the 400 is passed to `next` as a second
      argument and dropped); a wrong old password is a 400; new values that
      fail validation (at least 8 UTF-16 code units, confirmation equal) are an error
      for the middleware; otherwise the reset record is saved and a token is
      signed. */
  method ResetPassword(db: Database, rawToken: string, sha: string -> string, oldPassword: string,
                       newPassword: string, confirm: Option<string>,
                       compare: (string, string) -> bool, hash: string -> string,
                       sign: Id -> string, now: int)
    returns (r: Result<string>)
    modifies db`users
    ensures ResetLookup(old(db.users), sha(rawToken), now).None? ==>
      r == Fail(ServerError) && db.users == old(db.users)
    ensures ResetLookup(old(db.users), sha(rawToken), now).Some? ==>
      var u := old(db.users)[ResetLookup(old(db.users), sha(rawToken), now).value];
      var edited := u.(password := newPassword, passwordConfirm := confirm,
                         passwordResetToken := None, passwordResetExpires := None);
      (!compare(oldPassword, u.password) ==> r == Fail(BadRequest) && db.users == old(db.users)) &&
      (compare(oldPassword, u.password) && !PasswordFieldsValid(edited) ==>
         r == Fail(ServerError) && db.users == old(db.users)) &&
      (compare(oldPassword, u.password) && PasswordFieldsValid(edited) ==>
         r == Ok(sign(u.id)) &&
         WriteUser(old(db.users), AfterReset(u, newPassword, confirm, hash, now), false).Some? &&
         db.users == WriteUser(old(db.users), AfterReset(u, newPassword, confirm, hash, now), false).value)
  {
    var found := ResetLookup(db.users, sha(rawToken), now);
    if found.None? {
      return Fail(ServerError);
    }
    var u := db.users[found.value];
    if !compare(oldPassword, u.password) {
      return Fail(BadRequest);
    }
    var doc := new UserDocument.Load(u);
    AssignReset(doc, newPassword, confirm);
    ResetHooks(u, newPassword, confirm, hash, now, doc.modified);
    if PasswordFieldsValid(doc.data) {
      WriteExisting(db.users, u, AfterReset(u, newPassword, confirm, hash, now));
    }
    var ok := db.SaveUser(doc, true, hash, now);
    if !ok {
      return Fail(ServerError);
    }
    r := Ok(sign(u.id));
  }

  // ------------------------------------------------------------- deleteMe

  /** `deleteMe`: the caller's record is marked inactive (the update goes
      through the find filter); the reply is always 204. */
  method DeleteMe(db: Database, caller: Id)
    modifies db`users
    ensures db.users == SoftDelete(old(db.users), caller)
  {
    db.users := SoftDelete(db.users, caller);
  }

  // ------------------------------------------------------------- handlers

  /** The `otpSending` handler. */
  method OtpSending(db: Database, phone: string, code: nat, now: int) returns (r: Result<()>)
    requires OtpLow <= code < OtpHigh
    modifies db`otps
    ensures match Issue(old(db.otps), phone, code, now)
      case Fail(e) => r == Fail(e) && db.otps == old(db.otps)
      case Ok(otps) => r == Ok(()) && db.otps == otps
  {
    match Issue(db.otps, phone, code, now)
    case Fail(e) => r := Fail(e);
    case Ok(otps) =>
      db.otps := otps;
      r := Ok(());
  }

  /** The `verifyOTP` handler. */
  method VerifyOtp(db: Database, phone: string, code: string, now: int) returns (r: Result<()>)
    modifies db`otps
    ensures match Verify(old(db.otps), phone, code, now)
      case Fail(e) => r == Fail(e) && db.otps == old(db.otps)
      case Ok(otps) => r == Ok(()) && db.otps == otps
  {
    match Verify(db.otps, phone, code, now)
    case Fail(e) => r := Fail(e);
    case Ok(otps) =>
      db.otps := otps;
      r := Ok(());
  }
}
