/** The request gate and the credential flow (services/authService.ts).
    bcrypt and jsonwebtoken are oracles handed in as a `Crypto` value. */
module AuthService {
  import opened Wrappers
  import opened Documents
  import opened Strings
  import opened Store
  import opened Repository
  import opened Http

  /** The signing key used when `JWT_SECRET_KEY` is not set. */
  const DefaultSecret: string := "json-secret-key"

  /** The bcrypt cost factor signup hashes with. */
  const SaltRounds: nat := 10

  /** `process.env.JWT_SECRET_KEY ?? 'json-secret-key'`: only an unset variable
      falls back to the default; a set but empty one is used as it is. */
  function SecretKey(env: Option<string>): (k: string)
    ensures env.Some? ==> k == env.value
    ensures env.None? ==> k == DefaultSecret
  {
    env.GetOr(DefaultSecret)
  }

  /** The outcome of `bcrypt.compare`: a match, a mismatch, or a throw. Which one it
      gives when there is no stored hash is left to the oracle. */
  datatype Verdict = Match | NoMatch | Throws

  /** bcrypt and jsonwebtoken. `hash` stands for the salted hash bcrypt returns on
      this call; `sign` yields the token, or None when it throws; `verify` yields
      the decoded payload, or None when it throws. */
  datatype Crypto = Crypto(
    hash: (string, nat) -> string,
    compare: (string, Option<string>) -> Verdict,
    sign: (Doc, string) -> Option<string>,
    verify: (string, string) -> Option<Doc>)

  /** An error thrown inside the service: by the store, by `bcrypt.compare` or by `jwt.sign`. */
  datatype AuthError = StoreError(fault: Fault) | CompareError | SignError

  /** `{message: 'Invalid token'}` */
  function InvalidToken(): Json {
    TextBody("message", "Invalid token")
  }

  /** The gate either answers the request itself or lets it through with the decoded user. */
  datatype GateOutcome = Reject(reply: Reply) | Admit(user: Doc)

  /** The middleware's decision. The header must split on ' ' into exactly two
      parts; the first part (the scheme) is never looked at, and the second is
      the token verified. */
  function Gate(header: Option<string>, verify: (string, string) -> Option<Doc>, secret: string): (g: GateOutcome)
    ensures g == Reject(Reply(401, InvalidToken())) <==> header.None? || |Split(header.value, ' ')| != 2
    ensures g == Reject(Reply(403, InvalidToken())) <==>
      header.Some? && |Split(header.value, ' ')| == 2 && verify(Split(header.value, ' ')[1], secret).None?
    ensures g.Admit? ==>
      header.Some? && |Split(header.value, ' ')| == 2 && verify(Split(header.value, ' ')[1], secret) == Some(g.user)
    ensures header.Some? && |Split(header.value, ' ')| == 2 && verify(Split(header.value, ' ')[1], secret).Some? ==>
      g == Admit(verify(Split(header.value, ' ')[1], secret).value)
  {
    if header.None? || |Split(header.value, ' ')| != 2 then Reject(Reply(401, InvalidToken()))
    else
      match verify(Split(header.value, ' ')[1], secret)
      case None => Reject(Reply(403, InvalidToken()))
      case Some(user) => Admit(user)
  }

  /** A header with no space, or with more than one, is answered with 401. */
  lemma GateRejectsMalformed(header: string, verify: (string, string) -> Option<Doc>, secret: string)
    requires Count(header, ' ') != 1
    ensures Gate(Some(header), verify, secret) == Reject(Reply(401, InvalidToken()))
  {
  }

  /** Any scheme word followed by one space and a token hands that token, unchanged,
      to verification: "Bearer", "Basic" or "x" make no difference. */
  lemma GateIgnoresScheme(scheme: string, token: string, verify: (string, string) -> Option<Doc>, secret: string)
    requires ' ' !in scheme && ' ' !in token
    ensures Gate(Some(scheme + [' '] + token), verify, secret)
         == if verify(token, secret).Some? then Admit(verify(token, secret).value) else Reject(Reply(403, InvalidToken()))
  {
    var parts := [scheme, token];
    assert Join(parts, ' ') == scheme + [' '] + token by {
      assert parts[1..] == [token];
    }
    SplitJoin(parts, ' ');
  }

  /** Every header the gate passes on to verification is some scheme, one space and the token. */
  lemma GateTwoPartShape(header: string)
    requires |Split(header, ' ')| == 2
    ensures header == Split(header, ' ')[0] + [' '] + Split(header, ' ')[1]
  {
    JoinSplit(header, ' ');
    var parts := Split(header, ' ');
    assert parts[1..] == [parts[1]];
  }

  /** The request and response objects of one exchange as the middleware sees them:
      `res.locals`, the response written (if any) and how often `next` was called. */
  class Exchange {
    var locals: map<string, Json>
    var reply: Option<Reply>
    var nextCalls: nat

    constructor ()
      ensures locals == map[] && reply == None && nextCalls == 0
    {
      locals := map[];
      reply := None;
      nextCalls := 0;
    }

    /** `AuthenticationMiddleWare`, verifying with the key `env` selects: either
        writes the 401/403 response and does not call `next`, or stores the decoded user in `res.locals.user` and calls `next` once. */
    method Authenticate(header: Option<string>, crypto: Crypto, env: Option<string>)
      modifies this
      ensures Gate(header, crypto.verify, SecretKey(env)).Reject? ==>
        && reply == Some(Gate(header, crypto.verify, SecretKey(env)).reply)
        && locals == old(locals) && nextCalls == old(nextCalls)
      ensures Gate(header, crypto.verify, SecretKey(env)).Admit? ==>
        && locals == old(locals)["user" := Obj(Gate(header, crypto.verify, SecretKey(env)).user)]
        && nextCalls == old(nextCalls) + 1 && reply == old(reply)
    {
      if header.None? {
        reply := Some(Reply(401, InvalidToken()));
        return;
      }
      var token := Split(header.value, ' ');
      if |token| != 2 {
        reply := Some(Reply(401, InvalidToken()));
        return;
      }
      var decoded := crypto.verify(token[1], SecretKey(env));
      if decoded.None? {
        reply := Some(Reply(403, InvalidToken()));
        return;
      }
      locals := locals["user" := Obj(decoded.value)];
      nextCalls := nextCalls + 1;
    }
  }

  /** `generateToken`: signs the user object as it is, with no expiry. jsonwebtoken
      refuses an empty key by throwing, and the oracle may throw for another reason.
      Sent back as `Bearer <token>`, a token passes the gate with the signed user
      whenever `verify` decodes it to that user and it holds no space (a JWT is
      base64url text joined by dots). */
  function GenerateToken(user: Doc, crypto: Crypto, secret: string): (t: Option<string>)
    ensures secret == [] ==> t.None?
    ensures secret != [] ==> t == crypto.sign(user, secret)
    ensures t.Some? && ' ' !in t.value && crypto.verify(t.value, secret) == Some(user) ==>
      Gate(Some("Bearer " + t.value), crypto.verify, secret) == Admit(user)
  {
    if secret == [] then None
    else
      match crypto.sign(user, secret)
      case None => None
      case Some(t) =>
        if ' ' in t then Some(t)
        else
          assert "Bearer " + t == "Bearer" + [' '] + t;
          GateIgnoresScheme("Bearer", t, crypto.verify, secret);
          Some(t)
  }

  datatype LoginResponse = LoginResponse(user: Doc, token: string)

  function EmailFilter(email: string): Filter {
    map[EmailField := Str(email)]
  }

  /** The hash `bcrypt.compare` receives: the looked-up `password`, if it is there and a string. */
  function StoredHash(user: Doc): Option<string> {
    if PasswordField in user && user[PasswordField].Str? then Some(user[PasswordField].str) else None
  }

  /** What `login` returns once the password matched: the user with a token signed
      over it, or the error `jwt.sign` threw. */
  function SignedResponse(user: Doc, crypto: Crypto, secret: string): Result<Option<LoginResponse>, AuthError> {
    match GenerateToken(user, crypto, secret)
    case None => Err(SignError)
    case Some(token) => Ok(Some(LoginResponse(user, token)))
  }

  /** `login` after its lookup: no user gives null, a failed comparison gives null,
      a match gives the looked-up user and a token signed over it, unless signing throws. */
  function LoginOutcome(lookup: Result<Option<Doc>, Fault>, password: string, crypto: Crypto, secret: string)
    : (r: Result<Option<LoginResponse>, AuthError>)
    ensures lookup.Err? ==> r == Err(StoreError(lookup.error))
    ensures lookup == Ok(None) ==> r == Ok(None)
    ensures r.Ok? && r.value.Some? ==>
      && lookup == Ok(Some(r.value.value.user))
      && crypto.compare(password, StoredHash(r.value.value.user)) == Match
      && GenerateToken(r.value.value.user, crypto, secret) == Some(r.value.value.token)
    ensures lookup.Ok? && lookup.value.Some? ==>
      (r == Ok(None) <==> crypto.compare(password, StoredHash(lookup.value.value)) == NoMatch)
    ensures lookup.Ok? && lookup.value.Some? && crypto.compare(password, StoredHash(lookup.value.value)) == Match ==>
      r == SignedResponse(lookup.value.value, crypto, secret)
    ensures lookup.Ok? && lookup.value.Some? && crypto.compare(password, StoredHash(lookup.value.value)) == Throws ==>
      r == Err(CompareError)
    ensures r == Err(CompareError) <==>
      lookup.Ok? && lookup.value.Some? && crypto.compare(password, StoredHash(lookup.value.value)) == Throws
    ensures r == Err(SignError) <==>
      && lookup.Ok? && lookup.value.Some? && crypto.compare(password, StoredHash(lookup.value.value)) == Match
      && GenerateToken(lookup.value.value, crypto, secret).None?
  {
    match lookup
    case Err(f) => Err(StoreError(f))
    case Ok(None) => Ok(None)
    case Ok(Some(user)) =>
      match crypto.compare(password, StoredHash(user))
      case Throws => Err(CompareError)
      case NoMatch => Ok(None)
      case Match => SignedResponse(user, crypto, secret)
  }

  /** `login(email, password)`: reads the user table through the user repository's
      default projection and signs with the key `env` selects; writes nothing. */
  method Login(users: Repository, email: string, password: string, crypto: Crypto, env: Option<string>)
    returns (r: Result<Option<LoginResponse>, AuthError>)
    requires users.Valid() && users.collectionName == UsersCollection
    modifies users`collection, users.db`handleRequests
    ensures users.Valid()
    ensures r == LoginOutcome(FindOneOutcome(users.db.reachable, users.Docs(), EmailFilter(email), UserFindOptions(None)),
                              password, crypto, SecretKey(env))
  {
    var found := users.FindUser(EmailFilter(email), None);
    if found.Err? {
      return Err(StoreError(found.error));
    }
    if found.value.None? {
      return Ok(None);
    }
    var user := found.value.value;
    var verdict := crypto.compare(password, StoredHash(user));
    if verdict == Throws {
      return Err(CompareError);
    }
    if verdict == NoMatch {
      return Ok(None);
    }
    var token := GenerateToken(user, crypto, SecretKey(env));
    if token.None? {
      return Err(SignError);
    }
    r := Ok(Some(LoginResponse(user, token.value)));
  }

  /** With the default projection the looked-up user never carries its hash, so the
      comparison always receives None, and a token is only issued when the oracle
      accepts a comparison against no hash at all. */
  lemma {:induction false} LoginComparesAgainstNoHash(docs: seq<Doc>, email: string, password: string, crypto: Crypto, secret: string)
    ensures var lookup := FindOneOutcome(true, docs, EmailFilter(email), UserFindOptions(None));
      && (lookup.value.Some? ==> StoredHash(lookup.value.value) == None && PasswordField !in lookup.value.value)
      && LoginOutcome(lookup, password, crypto, secret)
         == if FirstMatch(docs, EmailFilter(email)).None? then Ok(None)
            else match crypto.compare(password, None)
              case Throws => Err(CompareError)
              case NoMatch => Ok(None)
              case Match => SignedResponse(lookup.value.value, crypto, secret)
  {
    var lookup := FindOneOutcome(true, docs, EmailFilter(email), UserFindOptions(None));
    if lookup.value.Some? {
      var d := docs[FirstMatch(docs, EmailFilter(email)).value];
      assert lookup.value.value == Project(d, {PasswordField});
      assert PasswordField !in lookup.value.value;
    }
  }

  /** An email no stored user has makes `login` return null. */
  lemma LoginUnknownEmail(docs: seq<Doc>, email: string, password: string, crypto: Crypto, secret: string)
    requires forall j :: 0 <= j < |docs| && EmailField in docs[j] ==> docs[j][EmailField] != Str(email)
    ensures LoginOutcome(FindOneOutcome(true, docs, EmailFilter(email), UserFindOptions(None)), password, crypto, secret) == Ok(None)
  {
    forall j | 0 <= j < |docs| ensures !Matches(docs[j], EmailFilter(email)) {
      assert EmailField in EmailFilter(email);
    }
  }

  /** The user `signupUser` returns: the fields it inserted and the inserted id, without `createdAt`. */
  function SignedUpUser(name: string, email: string, hashed: string, id: Json): (d: Doc)
    ensures d.Keys == {NameField, EmailField, PasswordField, IdField}
    ensures d[NameField] == Str(name) && d[EmailField] == Str(email)
    ensures d[PasswordField] == Str(hashed) && d[IdField] == id
  {
    UserFields(name, email, hashed)[IdField := id]
  }

  /** Read as a `User`, the returned user carries the given name and email, the
      hashed password and the inserted id, and no `createdAt`. */
  lemma SignedUpUserView(name: string, email: string, hashed: string, id: ObjectId)
    ensures AsUser(SignedUpUser(name, email, hashed, Oid(id))) == Some(User(id, None, name, email, Some(hashed)))
    ensures SignedUpUser(name, email, hashed, Oid(id)) == UserDoc(User(id, None, name, email, Some(hashed)))
  {
    var d := SignedUpUser(name, email, hashed, Oid(id));
    assert CreatedAtField !in d;
    assert d.Keys == UserDoc(User(id, None, name, email, Some(hashed))).Keys;
  }

  /** The user signup stores is the document of a `User` with the hashed password
      and `createdAt`; what a later lookup through the default projection reads
      back is that user without a password. */
  lemma StoredUserView(name: string, email: string, hashed: string, now: int, id: ObjectId)
    ensures Stamp(UserFields(name, email, hashed), now)[IdField := Oid(id)] == UserDoc(User(id, Some(now), name, email, Some(hashed)))
    ensures AsUser(Project(Stamp(UserFields(name, email, hashed), now)[IdField := Oid(id)], {PasswordField}))
         == Some(User(id, Some(now), name, email, None))
  {
    var d := Stamp(UserFields(name, email, hashed), now)[IdField := Oid(id)];
    var e := UserDoc(User(id, Some(now), name, email, Some(hashed)));
    assert d.Keys == e.Keys;
    var p := Project(d, {PasswordField});
    assert p[IdField] == Oid(id) && p[NameField] == Str(name) && p[EmailField] == Str(email) && p[CreatedAtField] == Date(now);
  }

  /** `signupUser`: refuses a known email without writing anything; otherwise inserts
      exactly one user with the hashed password and returns it, or null when the
      store did not acknowledge the insert. */
  method SignupUser(users: Repository, name: string, email: string, password: string, crypto: Crypto, now: int)
    returns (r: Result<Option<Doc>, AuthError>)
    requires users.Valid() && users.collectionName == UsersCollection
    modifies users`collection, users.db`handleRequests, users.db`tables, users.db`nextId
    ensures users.Valid()
    ensures forall n :: n != UsersCollection ==> users.db.Docs(n) == old(users.db.Docs(n))
    ensures !users.db.reachable ==> r == Err(StoreError(Unavailable)) && users.Docs() == old(users.Docs())
    ensures users.db.reachable && FirstMatch(old(users.Docs()), EmailFilter(email)).Some? ==>
      r == Ok(None) && users.Docs() == old(users.Docs())
    ensures users.db.reachable && FirstMatch(old(users.Docs()), EmailFilter(email)).None? ==>
      var hashed := crypto.hash(password, SaltRounds);
      var id := Oid(old(users.db.nextId));
      && users.Docs() == old(users.Docs()) + [Stamp(UserFields(name, email, hashed), now)[IdField := id]]
      && r == Ok(if users.db.acknowledges then Some(SignedUpUser(name, email, hashed, id)) else None)
  {
    var existing := users.FindUser(EmailFilter(email), None);
    if existing.Err? {
      return Err(StoreError(existing.error));
    }
    if existing.value.Some? {
      return Ok(None);
    }
    ghost var before := users.Docs();
    var hashed := crypto.hash(password, SaltRounds);
    GeneratedIdInserts(before, users.db.nextId, Stamp(UserFields(name, email, hashed), now), users.db.acknowledges);
    var result := users.InsertOne(UserFields(name, email, hashed), now);
    if result.Err? {
      return Err(StoreError(result.error));
    }
    if !result.value.acknowledged {
      return Ok(None);
    }
    r := Ok(Some(SignedUpUser(name, email, hashed, result.value.insertedId)));
  }
}
