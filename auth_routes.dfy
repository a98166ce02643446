/**
 * `routes/auth.js`: signup, login, email verification, forgot-password and the two
 * reset-password handlers, as a small state machine over the user collection. The
 * `:token` route parameter is given as `None` when missing and otherwise as the token
 * the client presents; `salt` stands for the value `bcrypt.genSalt(10)` returns.
 */
module AuthRoutes {
  import opened Base
  import opened Js
  import opened Joi
  import opened Mongo
  import opened Crypto
  import opened UserModel
  import opened Database

  /** The reply and the user collection after `POST /signup`. */
  function SignupOutcome(users: seq<User>, body: Body, isEmail: string -> bool, salt: nat, newId: string): (out: (Reply<()>, seq<User>))
    ensures !out.0.Ok? ==> out.1 == users
    ensures ValidateUserSignUp(body, isEmail).Reject? ==> out.0 == Invalid(ValidateUserSignUp(body, isEmail).path)
    ensures ValidateUserSignUp(body, isEmail).Pass? && Find(users, UserEmail, TextOf(Get(body, "email"))).Some? ==>
      out.0 == Fail(400, "User already registered")
    ensures out.0.Ok? <==>
      && ValidateUserSignUp(body, isEmail).Pass?
      && Find(users, UserEmail, TextOf(Get(body, "email"))).None?
      && Get(body, "password") != Undefined
    ensures out.0.Ok? ==>
      out.1 == users + [NewUser(newId, TextOf(Get(body, "name")), TextOf(Get(body, "email")), Hash(TextOf(Get(body, "password")), salt))]
  {
    match ValidateUserSignUp(body, isEmail)
    case Reject(path) => (Invalid(path), users)
    case Pass =>
      var email := TextOf(Get(body, "email"));
      if Find(users, UserEmail, email).Some? then (Fail(400, "User already registered"), users)
      else if Get(body, "password") == Undefined then (Thrown, users)
      else (Ok(()), users + [NewUser(newId, TextOf(Get(body, "name")), email, Hash(TextOf(Get(body, "password")), salt))])
  }

  /** Storing a schema-valid user under a fresh id and an email not yet registered keeps the collection well-formed. */
  lemma UsersOkAppend(users: seq<User>, u: User)
    requires UsersOk(users)
    requires IsId(u.id) && UserSchemaValid(u)
    requires Find(users, UserId, u.id).None? && Find(users, UserEmail, u.email).None?
    ensures UsersOk(users + [u])
  {
    AppendUnique(users, UserId, u);
    AppendUnique(users, UserEmail, u);
    var r := users + [u];
    forall i | 0 <= i < |r| ensures IsId(r[i].id) && UserSchemaValid(r[i]) {
      if i < |users| { assert r[i] == users[i]; }
    }
  }

  lemma SignupKeepsUsersOk(users: seq<User>, body: Body, isEmail: string -> bool, salt: nat, newId: string)
    requires UsersOk(users)
    requires IsId(newId) && Find(users, UserId, newId).None?
    ensures UsersOk(SignupOutcome(users, body, isEmail, salt, newId).1)
  {
    if SignupOutcome(users, body, isEmail, salt, newId).0.Ok? {
      ValidateUserSignUpMeaning(body, isEmail);
      var u := NewUser(newId, TextOf(Get(body, "name")), TextOf(Get(body, "email")), Hash(TextOf(Get(body, "password")), salt));
      UsersOkAppend(users, u);
    }
  }

  /**
   * `POST /signup`: validate, refuse a registered email, build the user from `name`,
   * `email` and `password` alone, replace the password by its hash, save. Without a
   * password `bcrypt.hash` rejects, and the handler has no `catch`.
   */
  method Signup(db: Db, body: Body, isEmail: string -> bool, salt: nat, newId: string) returns (reply: Reply<()>)
    requires db.Valid()
    requires IsId(newId) && Find(db.users, UserId, newId).None?
    modifies db`users
    ensures db.Valid()
    ensures (reply, db.users) == SignupOutcome(old(db.users), body, isEmail, salt, newId)
  {
    SignupKeepsUsersOk(db.users, body, isEmail, salt, newId);
    var verdict := ValidateUserSignUp(body, isEmail);
    if verdict.Reject? {
      return Invalid(verdict.path);
    }
    if Find(db.users, UserEmail, TextOf(Get(body, "email"))).Some? {
      return Fail(400, "User already registered");
    }
    if Get(body, "password") == Undefined {
      return Thrown;
    }
    var hashed := Hash(TextOf(Get(body, "password")), salt);
    var user := NewUser(newId, TextOf(Get(body, "name")), TextOf(Get(body, "email")), hashed);
    db.users := db.users + [user];
    reply := Ok(());
  }

  /** The `data` of a successful login. */
  datatype LoginData = LoginData(id: string, name: string, email: string, token: Token, refreshToken: Token)

  /** `POST /login`: an unknown email and a wrong password give the same reply. */
  function Login(users: seq<User>, body: Body, isEmail: string -> bool): (r: Reply<LoginData>)
    ensures ValidateUserLogin(body, isEmail).Reject? ==> r == Invalid(ValidateUserLogin(body, isEmail).path)
    ensures ValidateUserLogin(body, isEmail).Pass? && !r.Ok? ==> r == Fail(400, "Invalide email or password")
    ensures r.Ok? ==> ValidateUserLogin(body, isEmail).Pass?
    ensures r.Ok? ==> exists u :: (u in users && u.email == TextOf(Get(body, "email")) && Matches(TextOf(Get(body, "password")), u.password)
      && r.data == LoginData(u.id, u.name, u.email, GenerateAuthToken(u), GenerateRefreshToken(u)))
  {
    match ValidateUserLogin(body, isEmail)
    case Reject(path) => Invalid(path)
    case Pass =>
      match Find(users, UserEmail, TextOf(Get(body, "email")))
      case None => Fail(400, "Invalide email or password")
      case Some(i) =>
        var u := users[i];
        if !Matches(TextOf(Get(body, "password")), u.password) then Fail(400, "Invalide email or password")
        else Ok(LoginData(u.id, u.name, u.email, GenerateAuthToken(u), GenerateRefreshToken(u)))
  }

  /** With emails unique, as the index keeps them, login succeeds exactly for a stored email with its password. */
  lemma LoginSucceedsIffCredentialsMatch(users: seq<User>, body: Body, isEmail: string -> bool)
    requires UniqueBy(users, UserEmail)
    ensures Login(users, body, isEmail).Ok? <==>
      && ValidateUserLogin(body, isEmail).Pass?
      && exists u :: u in users && u.email == TextOf(Get(body, "email")) && Matches(TextOf(Get(body, "password")), u.password)
  {
    if ValidateUserLogin(body, isEmail).Pass? {
      var email := TextOf(Get(body, "email"));
      if u :| u in users && u.email == email && Matches(TextOf(Get(body, "password")), u.password) {
        var j :| 0 <= j < |users| && users[j] == u;
        FindUnique(users, UserEmail, email, j);
      }
    }
  }

  /** Login does not look at `verified`: changing any user's flag changes no login reply. */
  lemma LoginIgnoresVerified(users: seq<User>, i: nat, verified: bool, body: Body, isEmail: string -> bool)
    requires i < |users|
    ensures Login(users[i := users[i].(verified := verified)], body, isEmail) == Login(users, body, isEmail)
  {
    var changed := users[i := users[i].(verified := verified)];
    FindSameKeys(users, changed, UserEmail, TextOf(Get(body, "email")));
  }

  /** `jwt.verify(token, JWT_PRIVATE_KEY)` followed by `User.findById(decoded._id)`: the position of the user the token names. */
  function TokenUser(users: seq<User>, token: Token): (r: Option<nat>)
    ensures r.Some? ==> (r.value < |users| && Verify(token, JwtPrivateKey).Some?
      && Some(users[r.value].id) == CastId(Verify(token, JwtPrivateKey).value.id))
    ensures r.None? <==>
      || Verify(token, JwtPrivateKey).None?
      || CastId(Verify(token, JwtPrivateKey).value.id).None?
      || forall u :: u in users ==> Some(u.id) != CastId(Verify(token, JwtPrivateKey).value.id)
  {
    match Verify(token, JwtPrivateKey)
    case None => None
    case Some(claims) =>
      match CastId(claims.id)
      case None => None
      case Some(id) => Find(users, UserId, id)
  }

  /** The reply and the user collection after `GET /authentication/:token`. */
  function VerifyEmailOutcome(users: seq<User>, token: Option<Token>): (out: (Reply<()>, seq<User>))
    ensures token.None? ==> out == (Fail(401, "Access denied. No token provided"), users)
    ensures token.Some? && TokenUser(users, token.value).None? ==> out == (Fail(400, "Invalide token"), users)
    ensures out.0.Ok? <==> token.Some? && TokenUser(users, token.value).Some?
    ensures out.0.Ok? ==> var i := TokenUser(users, token.value).value;
      out.1 == users[i := users[i].(verified := true)]
  {
    match token
    case None => (Fail(401, "Access denied. No token provided"), users)
    case Some(t) =>
      match TokenUser(users, t)
      case None => (Fail(400, "Invalide token"), users)
      case Some(i) => (Ok(()), users[i := users[i].(verified := true)])
  }

  /** Changing a user's fields other than the id and email keeps the collection well-formed. */
  lemma UsersOkReplace(users: seq<User>, i: nat, u: User)
    requires UsersOk(users)
    requires i < |users| && u.id == users[i].id && u.email == users[i].email && UserSchemaValid(u)
    ensures UsersOk(users[i := u])
  {
    ReplaceUnique(users, UserId, i, u);
    ReplaceUnique(users, UserEmail, i, u);
    var r := users[i := u];
    forall j | 0 <= j < |r| ensures IsId(r[j].id) && UserSchemaValid(r[j]) {
      if j != i { assert r[j] == users[j]; }
    }
  }

  /** Email verification sets `verified` of the named user and of no other, and changes nothing else. */
  lemma VerifyEmailChangesOnlyFlag(users: seq<User>, token: Option<Token>)
    requires UsersOk(users)
    ensures UsersOk(VerifyEmailOutcome(users, token).1)
    ensures var after := VerifyEmailOutcome(users, token).1;
      |after| == |users| && forall j :: 0 <= j < |users| ==> after[j] == users[j].(verified := after[j].verified)
  {
    var out := VerifyEmailOutcome(users, token);
    if out.0.Ok? {
      var i := TokenUser(users, token.value).value;
      UsersOkReplace(users, i, users[i].(verified := true));
    }
  }

  /**
   * `GET /authentication/:token`: verify the token, fetch its user, set `verified`. The
   * `save` is not awaited; it is taken to be applied. A bad token, a bad id or a missing
   * user all end in the `catch`.
   */
  method VerifyEmail(db: Db, token: Option<Token>) returns (reply: Reply<()>)
    requires db.Valid()
    modifies db`users
    ensures db.Valid()
    ensures (reply, db.users) == VerifyEmailOutcome(old(db.users), token)
  {
    VerifyEmailChangesOnlyFlag(db.users, token);
    if token.None? {
      return Fail(401, "Access denied. No token provided");
    }
    var found := TokenUser(db.users, token.value);
    if found.None? {
      return Fail(400, "Invalide token");
    }
    var user := db.users[found.value];
    user := user.(verified := true);
    db.users := db.users[found.value := user];
    reply := Ok(());
  }

  /** The reset email `sendResetPasswordEmail` sends: to the user's address, with a token of their id signed with `JWT_PRIVATE_KEY`. */
  datatype ResetEmail = ResetEmail(to: string, token: Token)

  /** `POST /forgot-password`: the reply, and the reset email requested (dispatch is not awaited). */
  function ForgotPassword(users: seq<User>, body: Body, isEmail: string -> bool): (r: (Reply<()>, Option<ResetEmail>))
    ensures ValidateForgotPassword(body, isEmail).Reject? ==> r == (Invalid(ValidateForgotPassword(body, isEmail).path), None)
    ensures ValidateForgotPassword(body, isEmail).Pass? && (forall u :: u in users ==> u.email != TextOf(Get(body, "email"))) ==>
      r == (Fail(400, "User not found with this given email"), None)
    ensures r.0.Ok? <==> r.1.Some?
    ensures r.0.Ok? <==> ValidateForgotPassword(body, isEmail).Pass? && exists u :: u in users && u.email == TextOf(Get(body, "email"))
    ensures r.1.Some? ==> exists u :: (u in users && u.email == TextOf(Get(body, "email"))
      && r.1.value == ResetEmail(u.email, Sign(JwtPrivateKey, Payload(u.id, None))))
  {
    match ValidateForgotPassword(body, isEmail)
    case Reject(path) => (Invalid(path), None)
    case Pass =>
      match Find(users, UserEmail, TextOf(Get(body, "email")))
      case None => (Fail(400, "User not found with this given email"), None)
      case Some(i) => (Ok(()), Some(ResetEmail(users[i].email, Sign(JwtPrivateKey, Payload(users[i].id, None)))))
  }

  /** A valid request naming a registered email succeeds, and the reset email goes to that user with a token of their id. */
  lemma ForgotPasswordOfStoredUser(users: seq<User>, body: Body, isEmail: string -> bool, i: nat)
    requires UsersOk(users) && i < |users|
    requires ValidateForgotPassword(body, isEmail).Pass? && TextOf(Get(body, "email")) == users[i].email
    ensures ForgotPassword(users, body, isEmail) ==
      (Ok(()), Some(ResetEmail(users[i].email, Sign(JwtPrivateKey, Payload(users[i].id, None)))))
  {
    FindUnique(users, UserEmail, users[i].email, i);
  }

  /** `GET /reset-password/:token`: the reset form, rendered with the token, when the token verifies; the user is not looked up. */
  function ResetPasswordForm(token: Option<Token>): (r: Reply<Token>)
    ensures token.None? ==> r == Fail(401, "Access denied. No token provided")
    ensures token.Some? ==> (r.Ok? <==> Verify(token.value, JwtPrivateKey).Some?)
    ensures token.Some? && !r.Ok? ==> r == Fail(400, "Invalid token")
    ensures r.Ok? ==> token == Some(r.data)
  {
    match token
    case None => Fail(401, "Access denied. No token provided")
    case Some(t) => if Verify(t, JwtPrivateKey).Some? then Ok(t) else Fail(400, "Invalid token")
  }

  /** The reply and the user collection after `POST /reset-password/:token`. */
  function ResetPasswordOutcome(users: seq<User>, token: Option<Token>, body: Body, salt: nat): (out: (Reply<()>, seq<User>))
    ensures !out.0.Ok? ==> out.1 == users
    ensures ValidateResetPassword(body).Reject? ==> out.0 == Invalid(ValidateResetPassword(body).path)
    ensures ValidateResetPassword(body).Pass? && token.None? ==> out.0 == Fail(401, "Access denied. No token provided")
    ensures ValidateResetPassword(body).Pass? && token.Some? && TokenUser(users, token.value).None? ==>
      out.0 == Fail(400, "Invalid token")
    ensures out.0.Ok? <==> ValidateResetPassword(body).Pass? && token.Some? && TokenUser(users, token.value).Some?
    ensures out.0.Ok? ==> var i := TokenUser(users, token.value).value;
      out.1 == users[i := users[i].(password := Hash(TextOf(Get(body, "password")), salt), verified := true)]
  {
    match ValidateResetPassword(body)
    case Reject(path) => (Invalid(path), users)
    case Pass =>
      match token
      case None => (Fail(401, "Access denied. No token provided"), users)
      case Some(t) =>
        match TokenUser(users, t)
        case None => (Fail(400, "Invalid token"), users)
        case Some(i) =>
          (Ok(()), users[i := users[i].(password := Hash(TextOf(Get(body, "password")), salt), verified := true)])
  }

  lemma ResetPasswordKeepsUsersOk(users: seq<User>, token: Option<Token>, body: Body, salt: nat)
    requires UsersOk(users)
    ensures UsersOk(ResetPasswordOutcome(users, token, body, salt).1)
  {
    var out := ResetPasswordOutcome(users, token, body, salt);
    if out.0.Ok? {
      var i := TokenUser(users, token.value).value;
      UsersOkReplace(users, i, users[i].(password := Hash(TextOf(Get(body, "password")), salt), verified := true));
    }
  }

  /**
   * `POST /reset-password/:token`: validate the body before looking at the token, then
   * verify it, fetch its user, store the hash of the new password and set `verified`.
   */
  method ResetPassword(db: Db, token: Option<Token>, body: Body, salt: nat) returns (reply: Reply<()>)
    requires db.Valid()
    modifies db`users
    ensures db.Valid()
    ensures (reply, db.users) == ResetPasswordOutcome(old(db.users), token, body, salt)
  {
    ResetPasswordKeepsUsersOk(db.users, token, body, salt);
    var verdict := ValidateResetPassword(body);
    if verdict.Reject? {
      return Invalid(verdict.path);
    }
    if token.None? {
      return Fail(401, "Access denied. No token provided");
    }
    var found := TokenUser(db.users, token.value);
    if found.None? {
      return Fail(400, "Invalid token");
    }
    var user := db.users[found.value];
    user := user.(password := Hash(TextOf(Get(body, "password")), salt));
    user := user.(verified := true);
    db.users := db.users[found.value := user];
    reply := Ok(());
  }

  /** A token signed with `JWT_PRIVATE_KEY` for a stored user names that user. */
  lemma SignedTokenNamesUser(users: seq<User>, i: nat, role: Option<string>)
    requires UsersOk(users) && i < |users|
    ensures TokenUser(users, Sign(JwtPrivateKey, Payload(users[i].id, role))) == Some(i)
  {
    CastStoredId(users[i].id);
    FindUnique(users, UserId, users[i].id, i);
  }

  /**
   * Session and email tokens share `JWT_PRIVATE_KEY`: the auth token a login returns is
   * accepted as an email-verification link, while a refresh token is refused.
   */
  lemma AuthTokenVerifiesEmail(users: seq<User>, i: nat)
    requires UsersOk(users) && i < |users|
    ensures VerifyEmailOutcome(users, Some(GenerateAuthToken(users[i]))).0 == Ok(())
    ensures VerifyEmailOutcome(users, Some(GenerateRefreshToken(users[i]))) == (Fail(400, "Invalide token"), users)
  {
    SignedTokenNamesUser(users, i, Some(RoleName(users[i].role)));
  }

  /** After a successful signup, logging in with the same email and password succeeds as the new user. */
  lemma SignupThenLogin(users: seq<User>, body: Body, isEmail: string -> bool, salt: nat, newId: string, login: Body)
    requires UsersOk(users) && IsId(newId) && Find(users, UserId, newId).None?
    requires SignupOutcome(users, body, isEmail, salt, newId).0.Ok?
    requires LoginBodyOk(login, isEmail)
    requires Get(login, "email") == Get(body, "email") && Get(login, "password") == Get(body, "password")
    ensures var after := SignupOutcome(users, body, isEmail, salt, newId).1;
      var r := Login(after, login, isEmail);
      r.Ok? && r.data.id == newId
  {
    var after := SignupOutcome(users, body, isEmail, salt, newId).1;
    var u := after[|users|];
    FindAppend(users, UserEmail, u);
    ValidateUserLoginMeaning(login, isEmail);
    assert after == users + [u];
  }

  /**
   * The forgot-password workflow: the token the reset email carries resets that user's
   * password, and afterwards the new password logs in.
   */
  lemma ForgotResetLogin(users: seq<User>, forgot: Body, isEmail: string -> bool, reset: Body, salt: nat, login: Body)
    requires UsersOk(users)
    requires ForgotPassword(users, forgot, isEmail).1.Some?
    requires ValidateResetPassword(reset).Pass?
    requires LoginBodyOk(login, isEmail)
    requires Get(login, "email") == Get(forgot, "email") && Get(login, "password") == Get(reset, "password")
    ensures var email := ForgotPassword(users, forgot, isEmail).1.value;
      var out := ResetPasswordOutcome(users, Some(email.token), reset, salt);
      && out.0 == Ok(())
      && Login(out.1, login, isEmail).Ok?
  {
    var email := ForgotPassword(users, forgot, isEmail).1.value;
    var i := Find(users, UserEmail, TextOf(Get(forgot, "email"))).value;
    SignedTokenNamesUser(users, i, None);
    var out := ResetPasswordOutcome(users, Some(email.token), reset, salt);
    var after := out.1;
    FindSameKeys(users, after, UserEmail, TextOf(Get(login, "email")));
    ValidateUserLoginMeaning(login, isEmail);
    assert after[i].password == Hash(TextOf(Get(reset, "password")), salt);
  }
}
