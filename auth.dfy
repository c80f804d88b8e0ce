/**
 * `AuthService`: registration (normalise the body, validate it, hash the
 * password, create the user row) and login (look the user up by email, verify
 * the password, sign a token for `{sub: id, email}`).
 *
 * argon2, `JSON.parse` and the JWT signer are foreign code; they enter as the
 * function values of `Collaborators`, and the one fact assumed of them is
 * `Sound`: a digest made from a password verifies against that password.
 */
module Auth {
  import opened Wrappers
  import opened Schema

  /** A JavaScript value as it can reach `register` as its body, or come out of `JSON.parse`. */
  datatype Value =
    | Undefined
    | Null
    | Bool(b: bool)
    | Num(n: int)
    | Str(s: string)
    | Arr(items: seq<Value>)
    | Obj(fields: map<string, Value>)

  /** JavaScript truthiness (`!v` is false). */
  predicate Truthy(v: Value)
  {
    match v
    case Undefined => false
    case Null => false
    case Bool(b) => b
    case Num(n) => n != 0
    case Str(s) => s != ""
    case Arr(_) => true
    case Obj(_) => true
  }

  /** `typeof v === 'object'`: null, arrays and plain objects. */
  predicate IsObject(v: Value)
  {
    v.Null? || v.Arr? || v.Obj?
  }

  /** Reading property `key` off a value, as destructuring does; missing properties read as undefined. */
  function Property(v: Value, key: string): Value
  {
    if v.Obj? && key in v.fields then v.fields[key] else Undefined
  }

  /** The claims the token is signed over. */
  datatype Claims = Claims(sub: Id, email: string)

  /** What `login` returns. */
  datatype Session = Session(accessToken: string)

  /** The five columns `register` hands back. */
  datatype Account = Account(id: Id, createdAt: nat, updatedAt: nat, email: string, password: string)

  /**
   * The exceptions the service raises. `ForeignError` stands for a failure
   * the source does not shape: a unique-constraint violation on create, and,
   * as a modelling choice, a field that is truthy but not a string, whose
   * fate in argon2 and Prisma is not modelled.
   */
  datatype AuthError = BadRequest(message: string) | Unauthorized(message: string) | ForeignError

  const INVALID_JSON_MESSAGE: string := "Invalid JSON body"
  const REQUIRED_MESSAGE: string := "Email and password are required"
  const INVALID_CREDENTIALS_MESSAGE: string := "Invalid credentials"

  /**
   * The foreign functions: `parseJson` (None when `JSON.parse` throws),
   * `hash(password, salt)` (the salt is argon2's randomness),
   * `verify(digest, password)` and `sign(claims)`.
   */
  datatype Collaborators = Collaborators(
    parseJson: string -> Option<Value>,
    hash: (string, string) -> string,
    verify: (string, string) -> bool,
    sign: Claims -> string)

  /** The one property assumed of the password hasher. */
  ghost predicate Sound(c: Collaborators)
  {
    forall password, salt :: c.verify(c.hash(password, salt), password)
  }

  /** Email and password, once validated. */
  datatype Credentials = Credentials(email: string, password: string)

  /** A string body is parsed as JSON first; any other body is taken as it is. */
  function Normalize(parseJson: string -> Option<Value>, body: Value): Result<Value, AuthError>
  {
    if body.Str? then
      match parseJson(body.s)
      case None => Err(BadRequest(INVALID_JSON_MESSAGE))
      case Some(v) => Ok(v)
    else Ok(body)
  }

  /** Everything `register` checks before it hashes. */
  function ReadCredentials(parseJson: string -> Option<Value>, body: Value): Result<Credentials, AuthError>
  {
    match Normalize(parseJson, body)
    case Err(e) => Err(e)
    case Ok(v) =>
      if !Truthy(v) || !IsObject(v) then Err(BadRequest(REQUIRED_MESSAGE))
      else
        var email, password := Property(v, "email"), Property(v, "password");
        if !Truthy(email) || !Truthy(password) then Err(BadRequest(REQUIRED_MESSAGE))
        else if !email.Str? || !password.Str? then Err(ForeignError)
        else Ok(Credentials(email.s, password.s))
  }

  /** `prisma.user.create`: the unique constraints on email and id reject a clash; otherwise the row is appended. */
  function Create(users: seq<User>, row: User): Result<seq<User>, AuthError>
  {
    if Find(users, UserEmail, row.email).Some? || Find(users, UserId, row.id).Some? then Err(ForeignError)
    else Ok(users + [row])
  }

  function AccountOf(u: User): Account
  {
    Account(u.id, u.createdAt, u.updatedAt, u.email, u.password)
  }

  /** The user table after `register`, and what it returned or threw. */
  datatype Registered = Registered(users: seq<User>, result: Result<Account, AuthError>)

  /** `register` as a function of the table before it; `id` and `now` are what the database assigns. */
  function Registration(c: Collaborators, users: seq<User>, body: Value, salt: string, id: Id, now: nat): Registered
  {
    match ReadCredentials(c.parseJson, body)
    case Err(e) => Registered(users, Err(e))
    case Ok(cred) =>
      var row := User(id, cred.email, c.hash(cred.password, salt), now, now, {});
      match Create(users, row)
      case Err(e) => Registered(users, Err(e))
      case Ok(users') => Registered(users', Ok(AccountOf(row)))
  }

  /** `login` as a function of the table. */
  function LoginOutcome(c: Collaborators, users: seq<User>, email: string, password: string): Result<Session, AuthError>
  {
    match Find(users, UserEmail, email)
    case None => Err(Unauthorized(INVALID_CREDENTIALS_MESSAGE))
    case Some(i) =>
      if !c.verify(users[i].password, password) then Err(Unauthorized(INVALID_CREDENTIALS_MESSAGE))
      else Ok(Session(c.sign(Claims(users[i].id, users[i].email))))
  }

  // ---------------------------------------------------------------------
  // Registration
  // ---------------------------------------------------------------------

  /** A string body that does not parse is refused with "Invalid JSON body"; nothing is stored. */
  lemma InvalidJsonRejected(c: Collaborators, users: seq<User>, text: string, salt: string, id: Id, now: nat)
    requires c.parseJson(text).None?
    ensures Registration(c, users, Str(text), salt, id, now) == Registered(users, Err(BadRequest(INVALID_JSON_MESSAGE)))
  {
  }

  /**
   * A body that is undefined, null or not an object, before or after parsing,
   * or one whose email or password is falsy, is refused with "Email and
   * password are required"; nothing is stored.
   */
  lemma MissingFieldsRejected(c: Collaborators, users: seq<User>, body: Value, salt: string, id: Id, now: nat)
    requires Normalize(c.parseJson, body).Ok?
    requires var v := Normalize(c.parseJson, body).value;
      !Truthy(v) || !IsObject(v) || !Truthy(Property(v, "email")) || !Truthy(Property(v, "password"))
    ensures Registration(c, users, body, salt, id, now) == Registered(users, Err(BadRequest(REQUIRED_MESSAGE)))
  {
  }

  /** The bodies `register` accepts are exactly objects with two non-empty string fields. */
  lemma AcceptedBodies(parseJson: string -> Option<Value>, body: Value, cred: Credentials)
    ensures ReadCredentials(parseJson, body) == Ok(cred) <==>
      && Normalize(parseJson, body).Ok?
      && Normalize(parseJson, body).value.Obj?
      && Property(Normalize(parseJson, body).value, "email") == Str(cred.email)
      && Property(Normalize(parseJson, body).value, "password") == Str(cred.password)
      && cred.email != "" && cred.password != ""
  {
  }

  /**
   * A successful registration appends exactly one row, with the given email
   * and the digest of the password, and returns that row's columns; a failed
   * one leaves the table as it was.
   */
  lemma RegistrationEffect(c: Collaborators, users: seq<User>, body: Value, salt: string, id: Id, now: nat)
    ensures var r := Registration(c, users, body, salt, id, now);
      && (r.result.Err? ==> r.users == users)
      && (r.result.Ok? ==>
          && ReadCredentials(c.parseJson, body).Ok?
          && var cred := ReadCredentials(c.parseJson, body).value;
          && r.users == users + [User(id, cred.email, c.hash(cred.password, salt), now, now, {})]
          && r.result.value == Account(id, now, now, cred.email, c.hash(cred.password, salt)))
  {
  }

  /** Registration fails on the database's side exactly when the email or the id is taken. */
  lemma RegistrationConflict(c: Collaborators, users: seq<User>, body: Value, salt: string, id: Id, now: nat)
    requires ReadCredentials(c.parseJson, body).Ok?
    ensures var email := ReadCredentials(c.parseJson, body).value.email;
      Registration(c, users, body, salt, id, now).result == Err(ForeignError) <==>
      Present(users, UserEmail, email) || Present(users, UserId, id)
  {
  }

  /** Registration keeps emails and ids unique. */
  lemma RegistrationKeepsUnique(c: Collaborators, users: seq<User>, body: Value, salt: string, id: Id, now: nat)
    requires UniqueUsers(users)
    ensures UniqueUsers(Registration(c, users, body, salt, id, now).users)
  {
    var r := Registration(c, users, body, salt, id, now);
    if r.result.Ok? {
      var row := r.users[|users|];
      assert r.users == users + [row];
      assert Find(users, UserEmail, row.email).None? && Find(users, UserId, row.id).None?;
    }
  }

  // ---------------------------------------------------------------------
  // Login
  // ---------------------------------------------------------------------

  /** An unknown email and a wrong password fail alike, with "Invalid credentials". */
  lemma LoginFailuresIndistinguishable(c: Collaborators, users: seq<User>, email: string, password: string)
    ensures LoginOutcome(c, users, email, password).Err? ==>
      LoginOutcome(c, users, email, password).error == Unauthorized(INVALID_CREDENTIALS_MESSAGE)
    ensures !Present(users, UserEmail, email) ==> LoginOutcome(c, users, email, password).Err?
  {
  }

  /** Login succeeds exactly for the user with that email whose digest verifies, and signs `{sub: id, email}`. */
  lemma LoginSucceedsIff(c: Collaborators, users: seq<User>, email: string, password: string, i: nat)
    requires UniqueUsers(users) && i < |users| && users[i].email == email
    ensures LoginOutcome(c, users, email, password).Ok? <==> c.verify(users[i].password, password)
    ensures LoginOutcome(c, users, email, password).Ok? ==>
      LoginOutcome(c, users, email, password).value == Session(c.sign(Claims(users[i].id, email)))
  {
    FindUnique(users, UserEmail, email, i);
  }

  /** After a successful registration, logging in with the same credentials yields a token for the new id. */
  lemma RegisterThenLogin(c: Collaborators, users: seq<User>, email: string, password: string,
                          salt: string, id: Id, now: nat)
    requires Sound(c)
    requires Registration(c, users, Obj(map["email" := Str(email), "password" := Str(password)]), salt, id, now).result.Ok?
    ensures var users' := Registration(c, users, Obj(map["email" := Str(email), "password" := Str(password)]), salt, id, now).users;
      LoginOutcome(c, users', email, password) == Ok(Session(c.sign(Claims(id, email))))
  {
    var body := Obj(map["email" := Str(email), "password" := Str(password)]);
    var row := User(id, email, c.hash(password, salt), now, now, {});
    assert ReadCredentials(c.parseJson, body) == Ok(Credentials(email, password));
    assert Find(users, UserEmail, email).None?;
    FindAppend(users, [row], UserEmail, email);
    assert Find([row], UserEmail, email) == Some(0);
  }

  // ---------------------------------------------------------------------
  // The service
  // ---------------------------------------------------------------------

  class AuthService {
    const collaborators: Collaborators
    var users: seq<User>

    ghost predicate Valid()
      reads this
    {
      Sound(collaborators) && UniqueUsers(users)
    }

    constructor (collaborators: Collaborators, users: seq<User>)
      requires Sound(collaborators) && UniqueUsers(users)
      ensures Valid() && this.collaborators == collaborators && this.users == users
    {
      this.collaborators := collaborators;
      this.users := users;
    }

    /** `register(body)`; `salt` is argon2's randomness, `id` and `now` the database's id and clock. */
    method Register(body: Value, salt: string, id: Id, now: nat) returns (r: Result<Account, AuthError>)
      requires Valid()
      modifies this`users
      ensures Valid()
      ensures Registered(users, r) == Registration(collaborators, old(users), body, salt, id, now)
    {
      var cred := ReadCredentials(collaborators.parseJson, body);
      if cred.Err? {
        return Err(cred.error);
      }
      var digest := collaborators.hash(cred.value.password, salt);
      var row := User(id, cred.value.email, digest, now, now, {});
      if Find(users, UserEmail, row.email).Some? || Find(users, UserId, id).Some? {
        return Err(ForeignError);
      }
      RegistrationKeepsUnique(collaborators, users, body, salt, id, now);
      users := users + [row];
      r := Ok(AccountOf(row));
    }

    /** `login({email, password})`; it only reads the table. */
    method Login(email: string, password: string) returns (r: Result<Session, AuthError>)
      ensures r == LoginOutcome(collaborators, users, email, password)
      ensures r.Err? ==> r.error == Unauthorized(INVALID_CREDENTIALS_MESSAGE)
    {
      var found := Find(users, UserEmail, email);
      if found.None? {
        return Err(Unauthorized(INVALID_CREDENTIALS_MESSAGE));
      }
      var user := users[found.value];
      var passwordValid := collaborators.verify(user.password, password);
      if !passwordValid {
        return Err(Unauthorized(INVALID_CREDENTIALS_MESSAGE));
      }
      r := Ok(Session(collaborators.sign(Claims(user.id, user.email))));
    }

    /** A client of the two methods: a fresh registration can be logged into at once. */
    method RegisterAndLogin(email: string, password: string, salt: string, id: Id, now: nat)
      returns (registered: Result<Account, AuthError>, session: Result<Session, AuthError>)
      requires Valid()
      modifies this`users
      ensures Valid()
      ensures registered.Ok? ==> registered.value.id == id && registered.value.email == email
      ensures registered.Ok? ==> session == Ok(Session(collaborators.sign(Claims(id, email))))
      ensures registered.Ok? <==>
        email != "" && password != "" && !Present(old(users), UserEmail, email) && !Present(old(users), UserId, id)
    {
      var body := Obj(map["email" := Str(email), "password" := Str(password)]);
      assert Property(body, "email") == Str(email) && Property(body, "password") == Str(password);
      ghost var before := users;
      registered := Register(body, salt, id, now);
      if registered.Ok? {
        RegisterThenLogin(collaborators, before, email, password, salt, id, now);
      }
      session := Login(email, password);
    }
  }
}
