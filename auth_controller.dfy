/** The login and signup handlers (controllers/authenticationController.ts). */
module AuthController {
  import opened Wrappers
  import opened Documents
  import opened Store
  import opened Repository
  import opened Http
  import opened AuthService
  import opened Strings

  datatype LoginInput = LoginInput(email: string, password: string)
  datatype SignupInput = SignupInput(email: string, password: string, name: string)

  /** `loginSchema.parse(body)`: a string the email check accepts and a password of JavaScript length at least 6. */
  function ParseLogin(body: Json, isEmail: string -> bool): (r: Option<LoginInput>)
    ensures r.Some? <==>
      && StrField(body, EmailField).Some? && isEmail(StrField(body, EmailField).value)
      && StrField(body, PasswordField).Some? && JsLength(StrField(body, PasswordField).value) >= 6
    ensures r.Some? ==>
      r.value == LoginInput(StrField(body, EmailField).value, StrField(body, PasswordField).value)
  {
    var email := StrField(body, EmailField);
    var password := StrField(body, PasswordField);
    if email.None? || !isEmail(email.value) then None
    else if password.None? || JsLength(password.value) < 6 then None
    else Some(LoginInput(email.value, password.value))
  }

  /** `signupSchema.parse(body)`: the login rules plus a name of JavaScript length at least 3. */
  function ParseSignup(body: Json, isEmail: string -> bool): (r: Option<SignupInput>)
    ensures r.Some? <==>
      && ParseLogin(body, isEmail).Some?
      && StrField(body, NameField).Some? && JsLength(StrField(body, NameField).value) >= 3
    ensures r.Some? ==>
      r.value == SignupInput(ParseLogin(body, isEmail).value.email, ParseLogin(body, isEmail).value.password,
                             StrField(body, NameField).value)
  {
    var login := ParseLogin(body, isEmail);
    var name := StrField(body, NameField);
    if login.None? then None
    else if name.None? || JsLength(name.value) < 3 then None
    else Some(SignupInput(login.value.email, login.value.password, name.value))
  }

  function LoginJson(response: LoginResponse): Json {
    Obj(map["user" := Obj(response.user), "token" := Str(response.token)])
  }

  /** login: null is a 401, a response is answered as it is, anything thrown is a 400. */
  function LoginReply(outcome: Result<Option<LoginResponse>, AuthError>): (reply: Reply)
    ensures reply == BadRequest() <==> outcome.Err?
    ensures reply == ErrorReply(401, "Invalid Credentials") <==> outcome == Ok(None)
    ensures outcome.Ok? && outcome.value.Some? ==> reply == Reply(200, LoginJson(outcome.value.value))
  {
    match outcome
    case Err(_) => BadRequest()
    case Ok(None) => ErrorReply(401, "Invalid Credentials")
    case Ok(Some(response)) => Reply(200, LoginJson(response))
  }

  /** The JSON value `signupUser` resolves to: null or `{user}`. */
  function SignupJson(user: Option<Doc>): Json {
    if user.Some? then Obj(map["user" := Obj(user.value)]) else Null
  }

  /** JavaScript's `'error' in value`: None when it throws, as it does on null and on
      primitives. Arrays, dates and ObjectIds are objects, and no prototype of theirs
      carries an `error` key. */
  function HasErrorKey(value: Json): (r: Option<bool>)
    ensures r.None? <==> value.Null? || value.Bool? || value.Num? || value.Str?
    ensures r == Some(true) <==> value.Obj? && "error" in value.fields
  {
    match value
    case Obj(fields) => Some("error" in fields)
    case Arr(_) => Some(false)
    case Oid(_) => Some(false)
    case Date(_) => Some(false)
    case _ => None
  }

  /** The handler's check of what the service resolved to: an `error` key is a 401
      carrying that error, any other object is a 200, and a value `in` cannot
      inspect throws, which the handler answers with 400. */
  function ResolvedReply(response: Json): (reply: Reply)
    ensures reply.status == 401 <==> HasErrorKey(response) == Some(true)
    ensures reply == Reply(200, response) <==> HasErrorKey(response) == Some(false)
    ensures reply == BadRequest() <==> HasErrorKey(response).None?
  {
    match HasErrorKey(response)
    case None => BadRequest()
    case Some(true) => Reply(401, Obj(map["error" := response.fields["error"]]))
    case Some(false) => Reply(200, response)
  }

  /** signup: anything thrown is a 400, and so is the null a duplicate email resolves to. */
  function SignupReply(outcome: Result<Option<Doc>, AuthError>): (reply: Reply)
    ensures reply.status == 200 <==> outcome.Ok? && outcome.value.Some?
    ensures outcome.Ok? && outcome.value.Some? ==> reply.body == SignupJson(outcome.value)
    ensures reply.status != 200 ==> reply == BadRequest()
  {
    if outcome.Err? then BadRequest() else ResolvedReply(SignupJson(outcome.value))
  }

  /** A `JWT_SECRET_KEY` that is set but empty is kept by `??`, so `jwt.sign`
      throws on every correct password and login is answered with 400. */
  lemma EmptySecretLoginIsBadRequest(user: Doc, password: string, crypto: Crypto)
    requires crypto.compare(password, StoredHash(user)) == Match
    ensures LoginOutcome(Ok(Some(user)), password, crypto, SecretKey(Some(""))) == Err(SignError)
    ensures LoginReply(LoginOutcome(Ok(Some(user)), password, crypto, SecretKey(Some("")))) == BadRequest()
  {
  }

  /** A duplicate email (null from `signupUser`) is answered with 400, not 401. */
  lemma DuplicateSignupIsBadRequest()
    ensures SignupReply(Ok(None)) == BadRequest()
  {
  }

  /** The 401 branch of signup is unreachable: no service outcome has an `error` key. */
  lemma SignupNeverUnauthorized(outcome: Result<Option<Doc>, AuthError>)
    ensures SignupReply(outcome).status != 401
  {
    if outcome.Ok? && outcome.value.Some? {
      assert "error" !in SignupJson(outcome.value).fields;
    }
  }

  /** zod measures `min(6)` in UTF-16 code units, so three emoji make a long enough password. */
  lemma EmojiPasswordAccepted(isEmail: string -> bool)
    requires isEmail("a@b.co")
    ensures ParseLogin(Obj(map[EmailField := Str("a@b.co"), PasswordField := Str("\U{1F600}\U{1F600}\U{1F600}")]), isEmail).Some?
  {
    EmojiLength();
  }

  /** `login`: an invalid body is a 400 and the service is not called. */
  method Login(users: Repository, body: Json, isEmail: string -> bool, crypto: Crypto, env: Option<string>) returns (reply: Reply)
    requires users.Valid() && users.collectionName == UsersCollection
    modifies users`collection, users.db`handleRequests
    ensures users.Valid()
    ensures ParseLogin(body, isEmail).None? ==> reply == BadRequest() && users.db.handleRequests == old(users.db.handleRequests)
    ensures ParseLogin(body, isEmail).Some? ==>
      var input := ParseLogin(body, isEmail).value;
      reply == LoginReply(LoginOutcome(FindOneOutcome(users.db.reachable, users.Docs(), EmailFilter(input.email), UserFindOptions(None)),
                                       input.password, crypto, SecretKey(env)))
  {
    var parsed := ParseLogin(body, isEmail);
    if parsed.None? {
      return BadRequest();
    }
    var response := AuthService.Login(users, parsed.value.email, parsed.value.password, crypto, env);
    reply := LoginReply(response);
  }

  /** `signup`: an invalid body is a 400 before the service runs; a successful
      signup answers `{user}`, hashed password included. */
  method Signup(users: Repository, body: Json, isEmail: string -> bool, crypto: Crypto, now: int) returns (reply: Reply)
    requires users.Valid() && users.collectionName == UsersCollection
    modifies users`collection, users.db`handleRequests, users.db`tables, users.db`nextId
    ensures users.Valid()
    ensures forall n :: n != UsersCollection ==> users.db.Docs(n) == old(users.db.Docs(n))
    ensures ParseSignup(body, isEmail).None? ==>
      reply == BadRequest() && users.Docs() == old(users.Docs()) && users.db.handleRequests == old(users.db.handleRequests)
    ensures ParseSignup(body, isEmail).Some? && users.db.reachable ==>
      var input := ParseSignup(body, isEmail).value;
      var hashed := crypto.hash(input.password, SaltRounds);
      if FirstMatch(old(users.Docs()), EmailFilter(input.email)).Some? then
        reply == BadRequest() && users.Docs() == old(users.Docs())
      else
        && users.Docs() == old(users.Docs()) + [Stamp(UserFields(input.name, input.email, hashed), now)[IdField := Oid(old(users.db.nextId))]]
        && reply == (if users.db.acknowledges
                     then Reply(200, SignupJson(Some(SignedUpUser(input.name, input.email, hashed, Oid(old(users.db.nextId))))))
                     else BadRequest())
    ensures ParseSignup(body, isEmail).Some? && !users.db.reachable ==> reply == BadRequest() && users.Docs() == old(users.Docs())
  {
    var parsed := ParseSignup(body, isEmail);
    if parsed.None? {
      return BadRequest();
    }
    var input := parsed.value;
    var response := SignupUser(users, input.name, input.email, input.password, crypto, now);
    reply := SignupReply(response);
  }
}
