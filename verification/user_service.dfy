/** The user service: registration, login and profile over the persistence
    service's user routes. bcrypt and JWT are parameters: `hash` is
    `bcrypt.hash`, `verify(plain, hashed)` is `bcrypt.compare`, and
    `sign(userId, email)` is `jwt.sign` of that payload with the service's
    secret and expiry. */
module UserService {
  import opened Wrappers
  import opened Assoc
  import opened Models
  import opened DbService
  import Seqs

  datatype RegisterRequest = RegisterRequest(username: Option<string>, email: Option<string>, password: Option<string>)

  datatype LoginRequest = LoginRequest(email: Option<string>, password: Option<string>)

  /** A JSON field of a user document. */
  datatype Field = Text(text: string) | Ids(ids: seq<string>)

  /** A user as JSON: field name to value. */
  type Document = map<string, Field>

  /** The body of a successful login. */
  datatype Session = Session(token: string, userId: string)

  /** The JSON of a stored user. */
  function UserDocument(e: Entry<string, User>): Document {
    map["_id" := Text(e.key), "username" := Text(e.value.username), "email" := Text(e.value.email),
        "password" := Text(e.value.password), "bots" := Ids(e.value.bots)]
  }

  /** `const { password, ...rest } = user`: every field but `password`. */
  function WithoutPassword(doc: Document): (r: Document)
    ensures "password" !in r
    ensures forall f :: f in r <==> f in doc && f != "password"
    ensures forall f :: f in r ==> r[f] == doc[f]
  {
    doc - {"password"}
  }

  /** Some stored user already has this username or this email. */
  predicate DuplicateAccount(users: seq<Entry<string, User>>, username: string, email: string) {
    exists i :: 0 <= i < |users| && (users[i].value.username == username || users[i].value.email == email)
  }

  predicate EmailRegistered(users: seq<Entry<string, User>>, email: string) {
    exists i :: 0 <= i < |users| && users[i].value.email == email
  }

  /** The registration steps after the duplicate pre-check: hash the password,
      save the user with no bots, and answer without the password. */
  function SaveAccount(db: Store, username: string, email: string, password: string,
                       hash: string -> string, newId: string): (out: (Reply<Document>, Store))
  {
    var (saved, db') := CreateUser(db, UserBody(Some(username), Some(email), Some(hash(password)), []), newId);
    if saved.Ok? then (Ok(201, WithoutPassword(UserDocument(saved.value))), db')
    else (Err(500, "Registration failed"), db)
  }

  /** `POST /register` as written: the pre-check fetches only the users whose
      email is the new one, so its username comparison never sees another
      user's username. */
  function RegisterAsWritten(db: Store, req: RegisterRequest, hash: string -> string, newId: string)
    : (out: (Reply<Document>, Store))
    ensures out.0.status == 400 <==> !(Truthy(req.username) && Truthy(req.email) && Truthy(req.password))
    ensures out.0.status == 409 <==>
              && Truthy(req.username) && Truthy(req.email) && Truthy(req.password)
              && db.connected && EmailRegistered(db.users, req.email.value)
    ensures out.0.Ok? ==>
              && out.0.status == 201
              && req.username.Some? && req.email.Some? && req.password.Some?
              && out.1.users == db.users + [Entry(newId, User(req.username.value, req.email.value, hash(req.password.value), []))]
              && "password" !in out.0.value
    ensures out.0.Err? ==> out.1 == db
    ensures out.1 == db.(users := out.1.users)
    ensures Valid(db) ==> Valid(out.1)
  {
    if !(Truthy(req.username) && Truthy(req.email) && Truthy(req.password)) then
      (Err(400, "All fields are required"), db)
    else match ListUsers(db, req.email)
      case Err(_, _) => (Err(500, "Registration failed"), db)
      case Ok(_, existing) =>
        if DuplicateAccount(existing, req.username.value, req.email.value) then (Err(409, "User already exists"), db)
        else
          SaveAccount(db, req.username.value, req.email.value, req.password.value, hash, newId)
  }

  /** A username taken under another email is not caught by the pre-check;
      the unique index then refuses the insert, and that refusal surfaces as
      500 instead of 409. */
  lemma TakenUsernameAnswers500()
    ensures var db := Store(true, [Entry("u1", User("alice", "alice@example.com", "h", []))], [], []);
            var req := RegisterRequest(Some("alice"), Some("other@example.com"), Some("pw"));
            && RegisterAsWritten(db, req, s => "hashed", "u2").0.status == 500
            && Register(db, req, s => "hashed", "u2").0.status == 409
  {
    var db := Store(true, [Entry("u1", User("alice", "alice@example.com", "h", []))], [], []);
    assert !EmailRegistered(db.users, "other@example.com");
    assert db.users[0].value.username == "alice";
  }

  /** In general: whenever the username is taken and the email is not, the
      registration as written answers 500 where the intended check answers
      409. */
  lemma TakenUsernameMisreported(db: Store, req: RegisterRequest, hash: string -> string, newId: string)
    requires Truthy(req.username) && Truthy(req.email) && Truthy(req.password) && db.connected
    requires !EmailRegistered(db.users, req.email.value)
    requires exists i :: 0 <= i < |db.users| && db.users[i].value.username == req.username.value
    ensures RegisterAsWritten(db, req, hash, newId).0.status == 500
    ensures Register(db, req, hash, newId).0.status == 409
  {
    var existing := ListUsers(db, req.email).value;
    assert !DuplicateAccount(existing, req.username.value, req.email.value);
  }

  /** `POST /register` with the duplicate check it evidently intends: a new
      account is refused with 409 when any user has its username or its
      email. A saved account has the hashed password and no bots, and the
      reply carries every field of the stored user except the password. */
  function Register(db: Store, req: RegisterRequest, hash: string -> string, newId: string)
    : (out: (Reply<Document>, Store))
    ensures out.0.status == 400 <==> !(Truthy(req.username) && Truthy(req.email) && Truthy(req.password))
    ensures out.0.status == 409 <==>
              && Truthy(req.username) && Truthy(req.email) && Truthy(req.password)
              && db.connected && DuplicateAccount(db.users, req.username.value, req.email.value)
    ensures out.0.status == 500 <==>
              && Truthy(req.username) && Truthy(req.email) && Truthy(req.password)
              && (!db.connected
                  || (!DuplicateAccount(db.users, req.username.value, req.email.value)
                      && (hash(req.password.value) == "" || HasKey(db.users, newId))))
    ensures out.0.Ok? ==>
              && req.username.Some? && req.email.Some? && req.password.Some?
              && var saved := Entry(newId, User(req.username.value, req.email.value, hash(req.password.value), []));
                 && out.0.status == 201
                 && out.1.users == db.users + [saved]
                 && out.0.value == WithoutPassword(UserDocument(saved))
                 && "password" !in out.0.value
    ensures out.0.Err? ==> out.1 == db
    ensures out.1 == db.(users := out.1.users)
    ensures Valid(db) ==> Valid(out.1)
  {
    if !(Truthy(req.username) && Truthy(req.email) && Truthy(req.password)) then
      (Err(400, "All fields are required"), db)
    else match ListUsers(db, None)
      case Err(_, _) => (Err(500, "Registration failed"), db)
      case Ok(_, existing) =>
        if DuplicateAccount(existing, req.username.value, req.email.value) then (Err(409, "User already exists"), db)
        else
          SaveAccount(db, req.username.value, req.email.value, req.password.value, hash, newId)
  }

  /** `GET /:userId/bots`: the user is looked up first, which decides 404
      (and 500 when the store is unreachable); only then are the bots listed
      with `?ownerId=<userId>`, and the reply wraps them as `{bots}`. */
  function UserBots(db: Store, userId: string): (r: Reply<seq<Entry<string, Bot>>>)
    ensures r.status == 500 <==> !db.connected
    ensures r.status == 404 <==> db.connected && !HasKey(db.users, userId)
    ensures r.Ok? <==> db.connected && HasKey(db.users, userId)
    ensures r.Ok? ==>
              && r.status == 200
              && (forall i :: 0 <= i < |r.value| ==>
                    r.value[i] in db.bots && (userId != "" ==> r.value[i].value.ownerId == userId))
              && (forall i :: 0 <= i < |db.bots| && db.bots[i].value.ownerId == userId ==> db.bots[i] in r.value)
  {
    match GetUser(db, userId)
    case Err(status, _) =>
      if status == 404 then Err(404, "User not found") else Err(500, "Failed to get user bots")
    case Ok(_, _) => Ok(200, ListBots(db, BotQuery(Some(userId), None)))
  }

  /** A user without bots gets an empty list, while an unknown id gets 404,
      although the listing alone answers both with an empty list. */
  lemma UnknownUserIsNotEmptyList()
    ensures var db := Store(true, [Entry("u1", User("alice", "a@example.com", "h", []))], [], []);
            && UserBots(db, "u1") == Ok(200, [])
            && UserBots(db, "u2").status == 404
            && ListBots(db, BotQuery(Some("u2"), None)) == []
  {
    var db := Store(true, [Entry("u1", User("alice", "a@example.com", "h", []))], [], []);
    assert db.users[0].key == "u1";
  }

  /** `POST /login`: the first user with the email, and a password that
      `verify` accepts, yield a token for that user; a missing user and a
      wrong password are both answered 401 `Invalid credentials`. */
  function Login(db: Store, req: LoginRequest, verify: (string, string) -> bool, sign: (string, string) -> string)
    : (r: Reply<Session>)
    ensures r.status == 400 <==> !(Truthy(req.email) && Truthy(req.password))
    ensures r.status == 500 <==> Truthy(req.email) && Truthy(req.password) && !db.connected
    ensures r.status == 401 ==> r == Err(401, "Invalid credentials")
    ensures r.status == 401 <==>
              && Truthy(req.email) && Truthy(req.password) && db.connected
              && var i := Seqs.First(db.users, EmailIs(req.email.value));
                 i < 0 || !verify(req.password.value, db.users[i].value.password)
    ensures r.Ok? ==>
              && r.status == 200 && req.email.Some? && req.password.Some?
              && exists i :: 0 <= i < |db.users|
                   && db.users[i].value.email == req.email.value
                   && (forall j :: 0 <= j < i ==> db.users[j].value.email != req.email.value)
                   && verify(req.password.value, db.users[i].value.password)
                   && r.value == Session(sign(db.users[i].key, req.email.value), db.users[i].key)
  {
    if !(Truthy(req.email) && Truthy(req.password)) then Err(400, "Email and password are required")
    else match ListUsers(db, req.email)
      case Err(_, _) => Err(500, "Login failed")
      case Ok(_, users) =>
        var p := EmailIs(req.email.value);
        Seqs.FirstOfFilter(db.users, p);
        var i := Seqs.First(users, p);
        if i < 0 then Err(401, "Invalid credentials")
        else
          var u := users[i];
          if !verify(req.password.value, u.value.password) then Err(401, "Invalid credentials")
          else Ok(200, Session(sign(u.key, u.value.email), u.key))
  }

  /** `GET /profile/:userId`: the stored user without the password. */
  function Profile(db: Store, userId: string): (r: Reply<Document>)
    ensures r.status == 500 <==> !db.connected
    ensures r.status == 404 <==> db.connected && !HasKey(db.users, userId)
    ensures r.Ok? ==>
              && r.status == 200
              && HasKey(db.users, userId)
              && r.value == WithoutPassword(UserDocument(Entry(userId, Find(db.users, userId).value)))
              && "password" !in r.value
  {
    match GetUser(db, userId)
    case Err(status, _) =>
      if status == 404 then Err(404, "User not found") else Err(500, "Failed to get profile")
    case Ok(_, e) => Ok(200, WithoutPassword(UserDocument(e)))
  }
}
