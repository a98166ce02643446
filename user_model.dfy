/** `models/user.js`: the User record, its schema defaults and enums, the four Joi validators and the two token methods. */
module UserModel {
  import opened Base
  import opened Js
  import opened Joi
  import opened Mongo
  import opened Crypto

  /** `role`: `enum: ["customer", "admin", "moderator"]`, default "customer". */
  datatype Role = Customer | Admin | Moderator

  /** `gender`: `enum: ["Male", "Female", "Other"]`. */
  datatype Gender = Male | Female | Other

  datatype User = User(
    id: string,
    name: string,
    email: string,
    password: PasswordHash,
    role: Role,
    verified: bool,
    phone: Option<string>,
    gender: Option<Gender>,
    orders: seq<string>)

  function UserId(u: User): string { u.id }

  function UserEmail(u: User): string { u.email }

  /** The text stored for a role. */
  function RoleName(r: Role): (s: string)
    ensures s in {"customer", "admin", "moderator"}
  {
    match r
    case Customer => "customer"
    case Admin => "admin"
    case Moderator => "moderator"
  }

  /** The role a stored text denotes: exactly the three names of the enum denote one. */
  function RoleOf(s: string): (r: Option<Role>)
    ensures r.Some? <==> s in {"customer", "admin", "moderator"}
    ensures r.Some? ==> RoleName(r.value) == s
  {
    if s == "customer" then Some(Customer)
    else if s == "admin" then Some(Admin)
    else if s == "moderator" then Some(Moderator)
    else None
  }

  /** The gender a stored text denotes: exactly the three names of the enum denote one. */
  function GenderOf(s: string): (g: Option<Gender>)
    ensures g.Some? <==> s in {"Male", "Female", "Other"}
  {
    if s == "Male" then Some(Male)
    else if s == "Female" then Some(Female)
    else if s == "Other" then Some(Other)
    else None
  }

  /**
   * `new User({name, email, password})` with the schema defaults: role "customer",
   * not verified, no phone, gender or orders.
   */
  function NewUser(id: string, name: string, email: string, password: PasswordHash): (u: User)
    ensures u.id == id && u.name == name && u.email == email && u.password == password
    ensures u.role == Customer && !u.verified
    ensures u.phone.None? && u.gender.None? && u.orders == []
  {
    User(id, name, email, password, Customer, false, None, None, [])
  }

  /** The schema's bounds on a stored user: name and email 1-255 characters, phone 1-20 when present. */
  predicate UserSchemaValid(u: User)
  {
    && 1 <= |u.name| <= 255
    && 1 <= |u.email| <= 255
    && (u.phone.Some? ==> 1 <= |u.phone.value| <= 20)
  }

  /** What the collection holds: schema-valid users with distinct ids and, by the unique index, distinct emails. */
  predicate UsersOk(users: seq<User>)
  {
    && (forall i :: 0 <= i < |users| ==> IsId(users[i].id) && UserSchemaValid(users[i]))
    && UniqueBy(users, UserId)
    && UniqueBy(users, UserEmail)
  }

  const SignUpSchema: seq<Key> := [
    Key("name", Text(1, Some(255), Plain), true, false),
    Key("email", Text(1, Some(255), Email), true, false),
    Key("password", Text(5, Some(255), Plain), false, false),
    Key("phone", Text(1, Some(255), Plain), false, false),
    Key("gender", Text(1, Some(255), Plain), false, false)
  ]

  const LoginSchema: seq<Key> := [
    Key("email", Text(5, Some(255), Email), true, false),
    Key("password", Text(5, Some(255), Plain), true, false)
  ]

  const ForgotPasswordSchema: seq<Key> := [Key("email", Text(5, Some(255), Email), true, false)]

  const ResetPasswordSchema: seq<Key> := [Key("password", Text(5, Some(255), Plain), true, false)]

  function ValidateUserSignUp(body: Body, isEmail: string -> bool): Verdict
  {
    Validate(SignUpSchema, body, isEmail)
  }

  function ValidateUserLogin(body: Body, isEmail: string -> bool): Verdict
  {
    Validate(LoginSchema, body, isEmail)
  }

  function ValidateForgotPassword(body: Body, isEmail: string -> bool): Verdict
  {
    Validate(ForgotPasswordSchema, body, isEmail)
  }

  /** `validateResetPassword(body)`; the schema has no email rule, so no email check is supplied. */
  function ValidateResetPassword(body: Body): Verdict
  {
    Validate(ResetPasswordSchema, body, NoEmail)
  }

  /**
   * `validateUserSignUp` accepts exactly: a name of 1-255 characters and an email-shaped
   * email of 1-255, both required; password (5-255), phone and gender (1-255) optional;
   * no other key.
   */
  predicate SignUpBodyOk(body: Body, isEmail: string -> bool)
  {
    && TextField(body, "name", true, 1, Some(255), Plain, isEmail)
    && TextField(body, "email", true, 1, Some(255), Email, isEmail)
    && TextField(body, "password", false, 5, Some(255), Plain, isEmail)
    && TextField(body, "phone", false, 1, Some(255), Plain, isEmail)
    && TextField(body, "gender", false, 1, Some(255), Plain, isEmail)
    && body.Keys <= {"name", "email", "password", "phone", "gender"}
  }

  lemma ValidateUserSignUpMeaning(body: Body, isEmail: string -> bool)
    ensures ValidateUserSignUp(body, isEmail).Pass? ==> SignUpBodyOk(body, isEmail)
    ensures SignUpBodyOk(body, isEmail) ==> ValidateUserSignUp(body, isEmail).Pass?
  {
    var S := SignUpSchema;
    ValidateMeaning(S, body, isEmail);
    assert Names(S) == {"name", "email", "password", "phone", "gender"} by {
      assert S[0].name == "name" && S[1].name == "email" && S[2].name == "password";
      assert S[3].name == "phone" && S[4].name == "gender";
    }
    assert KeyAccepts(S, 0, body, isEmail) == TextField(body, "name", true, 1, Some(255), Plain, isEmail);
    assert KeyAccepts(S, 1, body, isEmail) == TextField(body, "email", true, 1, Some(255), Email, isEmail);
    assert KeyAccepts(S, 2, body, isEmail) == TextField(body, "password", false, 5, Some(255), Plain, isEmail);
    assert KeyAccepts(S, 3, body, isEmail) == TextField(body, "phone", false, 1, Some(255), Plain, isEmail);
    assert KeyAccepts(S, 4, body, isEmail) == TextField(body, "gender", false, 1, Some(255), Plain, isEmail);
  }

  /** `validateUserLogin` accepts exactly an email-shaped email and a password, both 5-255 characters, and nothing else. */
  predicate LoginBodyOk(body: Body, isEmail: string -> bool)
  {
    && TextField(body, "email", true, 5, Some(255), Email, isEmail)
    && TextField(body, "password", true, 5, Some(255), Plain, isEmail)
    && body.Keys <= {"email", "password"}
  }

  lemma ValidateUserLoginMeaning(body: Body, isEmail: string -> bool)
    ensures ValidateUserLogin(body, isEmail).Pass? ==> LoginBodyOk(body, isEmail)
    ensures LoginBodyOk(body, isEmail) ==> ValidateUserLogin(body, isEmail).Pass?
  {
    var S := LoginSchema;
    ValidateMeaning(S, body, isEmail);
    assert Names(S) == {"email", "password"} by {
      assert S[0].name == "email" && S[1].name == "password";
    }
    assert KeyAccepts(S, 0, body, isEmail) == TextField(body, "email", true, 5, Some(255), Email, isEmail);
    assert KeyAccepts(S, 1, body, isEmail) == TextField(body, "password", true, 5, Some(255), Plain, isEmail);
  }

  /** `validateForgotPassword` accepts exactly a body whose only key is an email-shaped `email` of 5-255 characters. */
  lemma ValidateForgotPasswordMeaning(body: Body, isEmail: string -> bool)
    ensures ValidateForgotPassword(body, isEmail).Pass? ==>
      TextField(body, "email", true, 5, Some(255), Email, isEmail) && body.Keys <= {"email"}
    ensures TextField(body, "email", true, 5, Some(255), Email, isEmail) && body.Keys <= {"email"} ==>
      ValidateForgotPassword(body, isEmail).Pass?
  {
    var S := ForgotPasswordSchema;
    ValidateMeaning(S, body, isEmail);
    assert Names(S) == {"email"} by {
      assert S[0].name == "email";
    }
    assert KeyAccepts(S, 0, body, isEmail) == TextField(body, "email", true, 5, Some(255), Email, isEmail);
  }

  /** `validateResetPassword` accepts exactly a body whose only key is a `password` of 5-255 characters. */
  lemma ValidateResetPasswordMeaning(body: Body)
    ensures ValidateResetPassword(body).Pass? ==>
      Get(body, "password").Str? && 5 <= |Get(body, "password").s| <= 255 && body.Keys <= {"password"}
    ensures Get(body, "password").Str? && 5 <= |Get(body, "password").s| <= 255 && body.Keys <= {"password"} ==>
      ValidateResetPassword(body).Pass?
  {
    var S := ResetPasswordSchema;
    ValidateMeaning(S, body, NoEmail);
    assert Names(S) == {"password"} by {
      assert S[0].name == "password";
    }
    assert KeyAccepts(S, 0, body, NoEmail) == TextField(body, "password", true, 5, Some(255), Plain, NoEmail);
  }

  /** `user.generateAuthToken()`: the user's id and role, signed with `JWT_PRIVATE_KEY`. */
  function GenerateAuthToken(u: User): (t: Token)
    ensures Verify(t, JwtPrivateKey) == Some(Payload(u.id, Some(RoleName(u.role))))
    ensures Verify(t, JwtRefreshTokenPrivateKey) == None
  {
    Sign(JwtPrivateKey, Payload(u.id, Some(RoleName(u.role))))
  }

  /** `user.generateRefreshToken()`: the same claims, signed with `JWT_REFRESH_TOKEN_PRIVATE_KEY`. */
  function GenerateRefreshToken(u: User): (t: Token)
    ensures Verify(t, JwtRefreshTokenPrivateKey) == Some(Payload(u.id, Some(RoleName(u.role))))
    ensures Verify(t, JwtPrivateKey) == None
  {
    Sign(JwtRefreshTokenPrivateKey, Payload(u.id, Some(RoleName(u.role))))
  }
}
