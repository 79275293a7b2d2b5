/** `AuthService`: checking credentials against the user store, issuing a
    session on login, and registering. The user store, bcrypt and the JWT
    signer are passed in as oracles; users are plain objects. */
module AuthService {
  import opened Wrappers
  import opened JsValues
  import opened Strings
  import JwtStrategy

  // ---------------------------------------------------------------------
  // Session lifetimes
  // ---------------------------------------------------------------------

  /** `JwtModule.register({ signOptions: { expiresIn: '60m' } })`. */
  const SigningExpiresIn := "60m"

  /** What `login` tells the client about the token's lifetime. */
  const AdvertisedExpiresIn := "1h"

  /** A duration written as a numeral and a unit (`s`, `m`, `h` or `d`), in
      seconds; anything else is not understood. */
  function DurationSeconds(text: string): (r: Option<nat>)
    ensures r.Some? ==> |text| >= 2 && AllDigits(text[..|text| - 1])
  {
    if |text| < 2 || !AllDigits(text[..|text| - 1]) then None
    else
      var n := DecimalValue(text[..|text| - 1]);
      match text[|text| - 1]
      case 's' => Some(n)
      case 'm' => Some(n * 60)
      case 'h' => Some(n * 3600)
      case 'd' => Some(n * 86400)
      case _ => None
  }

  /** The lifetime `login` advertises is the one tokens are signed with:
      one hour either way. */
  lemma AdvertisedLifetimeIsSigningLifetime()
    ensures DurationSeconds(AdvertisedExpiresIn) == Some(3600)
    ensures DurationSeconds(SigningExpiresIn) == DurationSeconds(AdvertisedExpiresIn)
  {
    assert AdvertisedExpiresIn[..1] == "1";
    assert "1"[..0] == [];
    assert SigningExpiresIn[..2] == "60";
    assert "60"[..1] == "6";
    assert "6"[..0] == [];
  }

  /** Seconds a signed session stays valid. */
  function SessionLifetime(): nat {
    DurationSeconds(SigningExpiresIn).GetOr(0)
  }

  /** What the signer actually signs: the payload plus the issue time and the
      expiry it adds. */
  function Claims(payload: JsObject, issuedAt: int): (r: JsObject)
    ensures forall k :: k in payload && k != "iat" && k != "exp" ==> k in r && r[k] == payload[k]
    ensures Field(r, "exp") == Num(issuedAt + SessionLifetime())
  {
    payload["iat" := Num(issuedAt)]["exp" := Num(issuedAt + SessionLifetime())]
  }

  // ---------------------------------------------------------------------
  // validateUser
  // ---------------------------------------------------------------------

  /** `usersService.findOne(email)`: the stored user, if any. */
  type UserLookup = string -> Option<JsObject>

  /** `bcrypt.compare(plaintext, storedHash)`. */
  type PasswordCheck = (string, Value) -> bool

  /** `validateUser(email, pass)`: the user without its `password` property
      when the user exists, has a (truthy) stored password and the password
      matches it; `null` otherwise. */
  function ValidateUser(findOne: UserLookup, compare: PasswordCheck, email: string, pass: string)
    : (r: Option<JsObject>)
    ensures r.Some? <==>
              && findOne(email).Some?
              && Truthy(Field(findOne(email).value, "password"))
              && compare(pass, Field(findOne(email).value, "password"))
    ensures r.Some? ==>
              && "password" !in r.value
              && r.value.Keys == findOne(email).value.Keys - {"password"}
              && forall k :: k in r.value ==> r.value[k] == findOne(email).value[k]
  {
    match findOne(email)
    case None => None
    case Some(user) =>
      if Truthy(Field(user, "password")) && compare(pass, Field(user, "password"))
      then Some(Omit(user, "password"))
      else None
  }

  /** An unknown email, or a user without a stored password, is rejected
      without consulting the password check at all: the result is the same
      whatever `compare` would say. */
  lemma ValidateUserSkipsCompare(findOne: UserLookup, c1: PasswordCheck, c2: PasswordCheck,
                                 email: string, pass: string)
    requires findOne(email).None? || !Truthy(Field(findOne(email).value, "password"))
    ensures ValidateUser(findOne, c1, email, pass) == ValidateUser(findOne, c2, email, pass) == None
  {
  }

  // ---------------------------------------------------------------------
  // login
  // ---------------------------------------------------------------------

  /** `jwtService.sign(claims)`. */
  type Signer = JsObject -> string

  /** The user as `login` shows it: `avatar` is the stored `displayImage`. */
  datatype PublicUser = PublicUser(
    id: Value, name: Value, email: Value, role: Value, avatar: Value, isVerified: Value)

  datatype AuthInfo = AuthInfo(kind: string, expiresIn: string)

  datatype LoginResult = LoginResult(
    success: bool, message: string, user: PublicUser, token: string, auth: AuthInfo)

  /** `{ email: user.email, sub: user.id }`. */
  function LoginPayload(user: JsObject): (r: JsObject)
    ensures r.Keys == {"email", "sub"}
    ensures r["sub"] == Field(user, "id") && r["email"] == Field(user, "email")
  {
    map["email" := Field(user, "email"), "sub" := Field(user, "id")]
  }

  /** `login(user)`: always a success, whatever the user's verification
      state; the token is the signed payload, and the public view copies six
      properties, renaming `displayImage` to `avatar`. */
  function Login(user: JsObject, sign: Signer, now: int): (r: LoginResult)
    ensures r.success && r.message == "Login successful"
    ensures r.auth == AuthInfo("Bearer", AdvertisedExpiresIn)
    ensures r.token == sign(Claims(LoginPayload(user), now))
    ensures r.user.id == Field(user, "id") && r.user.email == Field(user, "email")
    ensures r.user.name == Field(user, "name") && r.user.role == Field(user, "role")
    ensures r.user.avatar == Field(user, "displayImage")
    ensures r.user.isVerified == Field(user, "isVerified")
  {
    LoginResult(
      true,
      "Login successful",
      PublicUser(Field(user, "id"), Field(user, "name"), Field(user, "email"),
                 Field(user, "role"), Field(user, "displayImage"), Field(user, "isVerified")),
      sign(Claims(LoginPayload(user), now)),
      AuthInfo("Bearer", AdvertisedExpiresIn))
  }

  /** Nothing `login` returns depends on the stored password: removing it or
      replacing it changes nothing. */
  lemma LoginIgnoresPassword(user: JsObject, sign: Signer, now: int, other: Value)
    ensures Login(Omit(user, "password"), sign, now) == Login(user, sign, now)
    ensures Login(user["password" := other], sign, now) == Login(user, sign, now)
  {
    var u := Omit(user, "password");
    OmitField(user, "password", "id");
    OmitField(user, "password", "email");
    OmitField(user, "password", "name");
    OmitField(user, "password", "role");
    OmitField(user, "password", "displayImage");
    OmitField(user, "password", "isVerified");
    assert LoginPayload(u) == LoginPayload(user);
    assert LoginPayload(user["password" := other]) == LoginPayload(user);
  }

  /** A session issued by `login` comes back, through `JwtStrategy.validate`,
      as the user's id and email; the expiry it carries is exactly the
      lifetime `login` advertises after the issue time. */
  lemma LoginSessionRoundTrip(user: JsObject, now: int)
    ensures JwtStrategy.Validate(Claims(LoginPayload(user), now))
              == JwtStrategy.Principal(Field(user, "id"), Field(user, "email"))
    ensures Field(Claims(LoginPayload(user), now), "exp")
              == Num(now + DurationSeconds(AdvertisedExpiresIn).value)
  {
    AdvertisedLifetimeIsSigningLifetime();
    var c := Claims(LoginPayload(user), now);
    assert c["sub"] == Field(user, "id");
    assert c["email"] == Field(user, "email");
  }

  // ---------------------------------------------------------------------
  // register
  // ---------------------------------------------------------------------

  /** `usersService.create(userData)`; `None` when it rejects. */
  type UserCreator = JsObject -> Option<JsObject>

  datatype RegisterResult = RegisterResult(user: JsObject, login: LoginResult)

  /** `register(userData)`: the created user without its password, and the
      result of logging that user in. */
  function Register(create: UserCreator, sign: Signer, now: int, userData: JsObject)
    : (r: Option<RegisterResult>)
    ensures r.Some? <==> create(userData).Some?
    ensures r.Some? ==>
              && "password" !in r.value.user
              && r.value.user.Keys == create(userData).value.Keys - {"password"}
              && (forall k :: k in r.value.user ==> r.value.user[k] == create(userData).value[k])
              && r.value.login == Login(create(userData).value, sign, now)
  {
    match create(userData)
    case None => None
    case Some(user) =>
      var withoutPassword := Omit(user, "password");
      LoginIgnoresPassword(user, sign, now, Undefined);
      Some(RegisterResult(withoutPassword, Login(withoutPassword, sign, now)))
  }
}
