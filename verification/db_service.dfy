/** The persistence service: its user, bot and runtime-data routes over an
    in-memory store. Collections are ordered tables keyed by `_id` (the
    runtime records by their compound `(botId, userId)` key) and `connected`
    stands for `mongoose.connection.readyState === 1`. */
module DbService {
  import opened Wrappers
  import opened Assoc
  import opened Models
  import Seqs

  /** The unique compound index of runtime records. */
  datatype RuntimeKey = RuntimeKey(botId: string, userId: string)

  datatype Store = Store(
    connected: bool,
    users: seq<Entry<string, User>>,
    bots: seq<Entry<string, Bot>>,
    runtime: seq<Entry<RuntimeKey, RuntimeData>>)

  /** Request body of `POST /users`. */
  datatype UserBody = UserBody(username: Option<string>, email: Option<string>, password: Option<string>, bots: seq<string>)

  /** Request body of `PUT /users/:id`: any of the user's paths, each present
      or absent. */
  datatype UserPatch = UserPatch(
    username: Option<string>,
    email: Option<string>,
    password: Option<string>,
    bots: Option<seq<string>>)

  /** Query of `GET /bots`. */
  datatype BotQuery = BotQuery(ownerId: Option<string>, status: Option<string>)

  /** Request body of `POST /bots`. */
  datatype BotBody = BotBody(
    name: Option<string>,
    token: Option<string>,
    ownerId: Option<string>,
    commands: seq<Command>,
    flows: seq<Flow>,
    status: Option<string>)

  /** Request body of `PUT /bots/:id`: any of the bot's paths, each present
      or absent. */
  datatype BotPatch = BotPatch(
    name: Option<string>,
    token: Option<string>,
    ownerId: Option<string>,
    commands: Option<seq<Command>>,
    flows: Option<seq<Flow>>,
    status: Option<string>)

  /** Request body of `POST /runtime/:botId/users/:userId`. It is spread into
      the update, so a `botId` or `userId` in it overrides the URL's. */
  datatype RuntimePatch = RuntimePatch(
    botId: Option<string>,
    userId: Option<string>,
    currentFlow: Option<string>,
    currentStep: Option<string>,
    conversationState: Option<map<string, string>>)

  const NotConnected := "Database connection not established"

  /** The unique indexes on `username` and `email`. */
  predicate UniqueAccounts(users: seq<Entry<string, User>>) {
    forall i, j :: 0 <= i < |users| && 0 <= j < |users| && i != j ==>
      users[i].value.username != users[j].value.username && users[i].value.email != users[j].value.email
  }

  predicate ValidUsers(users: seq<Entry<string, User>>) {
    && UniqueKeys(users)
    && UniqueAccounts(users)
    && forall i :: 0 <= i < |users| ==> ValidUser(users[i].value)
  }

  predicate ValidBots(bots: seq<Entry<string, Bot>>) {
    UniqueKeys(bots) && forall i :: 0 <= i < |bots| ==> ValidBot(bots[i].value)
  }

  /** A runtime record sits under its own `(botId, userId)` key. */
  predicate Keyed(e: Entry<RuntimeKey, RuntimeData>) {
    && e.value.botId == e.key.botId
    && e.value.userId == e.key.userId
    && ValidRuntimeData(e.value)
  }

  predicate ValidRuntime(rs: seq<Entry<RuntimeKey, RuntimeData>>) {
    UniqueKeys(rs) && forall i :: 0 <= i < |rs| ==> Keyed(rs[i])
  }

  /** What the schemas and their unique indexes guarantee of the store. */
  predicate Valid(db: Store) {
    ValidUsers(db.users) && ValidBots(db.bots) && ValidRuntime(db.runtime)
  }

  // ---------------------------------------------------------------- users

  function EmailIs(email: string): Entry<string, User> -> bool {
    (e: Entry<string, User>) => e.value.email == email
  }

  /** `GET /users[?email=e]`: the users whose email is `e`, or all users when
      no (or an empty) email is given. */
  function ListUsers(db: Store, email: Option<string>): (r: Reply<seq<Entry<string, User>>>)
    ensures r.Err? <==> !db.connected
    ensures r.Err? ==> r.status == 500
    ensures r.Ok? ==>
              && r.status == 200
              && (forall i :: 0 <= i < |r.value| ==>
                    r.value[i] in db.users && (Truthy(email) ==> r.value[i].value.email == email.value))
              && (forall i :: 0 <= i < |db.users| && (Truthy(email) ==> db.users[i].value.email == email.value) ==>
                    db.users[i] in r.value)
  {
    if !db.connected then Err(500, NotConnected)
    else if Truthy(email) then Ok(200, Seqs.Filter(db.users, EmailIs(email.value)))
    else Ok(200, db.users)
  }

  /** `GET /users/:id`. */
  function GetUser(db: Store, id: string): (r: Reply<Entry<string, User>>)
    ensures r.status == 500 <==> !db.connected
    ensures r.status == 404 <==> db.connected && !HasKey(db.users, id)
    ensures r.Ok? <==> db.connected && HasKey(db.users, id)
    ensures r.Ok? ==> r.status == 200 && r.value.key == id && r.value in db.users
  {
    if !db.connected then Err(500, NotConnected)
    else match Find(db.users, id)
      case None => Err(404, "User not found")
      case Some(u) => Ok(200, Entry(id, u))
  }

  /** The duplicate-key violation a new user document would raise: its `_id`,
      its username or its email is already taken. */
  predicate Taken(users: seq<Entry<string, User>>, id: string, username: string, email: string) {
    || HasKey(users, id)
    || exists i :: 0 <= i < |users| && (users[i].value.username == username || users[i].value.email == email)
  }

  lemma AppendUser(users: seq<Entry<string, User>>, e: Entry<string, User>)
    requires ValidUsers(users)
    requires ValidUser(e.value)
    requires !Taken(users, e.key, e.value.username, e.value.email)
    ensures ValidUsers(users + [e])
  {
    var r := users + [e];
    assert r == Put(users, e.key, e.value);
    assert r[|users|] == e;
    assert forall i :: 0 <= i < |users| ==> r[i] == users[i];
  }

  /** `POST /users`. */
  function CreateUser(db: Store, body: UserBody, newId: string): (out: (Reply<Entry<string, User>>, Store))
    ensures out.0.status == 500 <==> !db.connected
    ensures out.0.status == 400 <==>
              db.connected && !(Truthy(body.username) && Truthy(body.email) && Truthy(body.password))
    ensures out.0.status == 409 <==>
              && db.connected
              && Truthy(body.username) && Truthy(body.email) && Truthy(body.password)
              && Taken(db.users, newId, body.username.value, body.email.value)
    ensures out.0.Ok? <==> out.0.status == 201
    ensures out.0.Ok? ==>
              && out.0.value == Entry(newId, User(body.username.value, body.email.value, body.password.value, body.bots))
              && out.1 == db.(users := db.users + [out.0.value])
    ensures out.0.Err? ==> out.1 == db
    ensures Valid(db) ==> Valid(out.1)
  {
    if !db.connected then (Err(500, NotConnected), db)
    else if !(Truthy(body.username) && Truthy(body.email) && Truthy(body.password)) then
      (Err(400, "Username, email, and password are required"), db)
    else if Taken(db.users, newId, body.username.value, body.email.value) then
      (Err(409, "User with this email or username already exists"), db)
    else
      var e := Entry(newId, User(body.username.value, body.email.value, body.password.value, body.bots));
      assert ValidUsers(db.users) ==> ValidUsers(db.users + [e]) by {
        if ValidUsers(db.users) { AppendUser(db.users, e); }
      }
      (Ok(201, e), db.(users := db.users + [e]))
  }

  /** `findByIdAndUpdate(uid, ...)` on the `bots` array of a user; a missing
      user is left alone. Only `bots` changes, so the unique indexes hold. */
  function EditBots(users: seq<Entry<string, User>>, uid: string, edit: seq<string> -> seq<string>)
    : (r: seq<Entry<string, User>>)
    ensures forall k :: k != uid ==> Find(r, k) == Find(users, k)
    ensures !HasKey(users, uid) ==> r == users
    ensures HasKey(users, uid) ==>
              Find(r, uid) == Some(Find(users, uid).value.(bots := edit(Find(users, uid).value.bots)))
    ensures ValidUsers(users) ==> ValidUsers(r)
  {
    match Find(users, uid)
    case None => users
    case Some(u) =>
      var r := Put(users, uid, u.(bots := edit(u.bots)));
      assert forall k :: k != uid ==> Find(r, k) == Find(users, k) by {
        forall k | k != uid ensures Find(r, k) == Find(users, k) {
          FindPut(users, uid, u.(bots := edit(u.bots)), k);
        }
      }
      r
  }

  /** The patch passes the `required` validators that `runValidators` runs
      on each path it sets. */
  predicate UserPatchValid(p: UserPatch) {
    && (p.username.Some? ==> p.username.value != "")
    && (p.email.Some? ==> p.email.value != "")
    && (p.password.Some? ==> p.password.value != "")
  }

  /** Another user than `id` already has `u`'s username or email. */
  predicate Clashes(users: seq<Entry<string, User>>, id: string, u: User) {
    exists i :: 0 <= i < |users| && users[i].key != id
                && (users[i].value.username == u.username || users[i].value.email == u.email)
  }

  /** Writing a valid user under a present id keeps the collection valid when
      no other user has its username or email. */
  lemma ReplaceUser(users: seq<Entry<string, User>>, id: string, u: User)
    requires ValidUsers(users) && HasKey(users, id)
    requires ValidUser(u) && !Clashes(users, id, u)
    ensures ValidUsers(Put(users, id, u))
  {
    var r := Put(users, id, u);
    var x := IndexOf(users, id);
    forall i, j | 0 <= i < |r| && 0 <= j < |r| && i != j
      ensures r[i].value.username != r[j].value.username && r[i].value.email != r[j].value.email
    {
      if i == x {
        assert r[j] == users[j] && users[j].key != id;
      } else if j == x {
        assert r[i] == users[i] && users[i].key != id;
      } else {
        assert r[i] == users[i] && r[j] == users[j];
      }
    }
    forall i | 0 <= i < |r| ensures ValidUser(r[i].value) {
      if i != x { assert r[i] == users[i]; }
    }
  }

  /** `PUT /users/:id`: the body's paths replace the stored ones. A path set
      empty fails validation with 400 (before the user is looked up); a
      username or email of another user hits a unique index, 409. */
  function UpdateUser(db: Store, id: string, patch: UserPatch): (out: (Reply<Entry<string, User>>, Store))
    ensures out.0.status == 500 <==> !db.connected
    ensures out.0.status == 400 <==> db.connected && !UserPatchValid(patch)
    ensures out.0.status == 404 <==> db.connected && UserPatchValid(patch) && !HasKey(db.users, id)
    ensures out.0.Ok? ==> out.0.status == 200 && db.connected && HasKey(db.users, id)
    ensures out.0.Ok? ==>
              var old_ := Find(db.users, id).value;
              var new_ := out.0.value.value;
              && out.0.value.key == id
              && Find(out.1.users, id) == Some(new_)
              && new_.username == patch.username.GetOr(old_.username)
              && new_.email == patch.email.GetOr(old_.email)
              && new_.password == patch.password.GetOr(old_.password)
              && new_.bots == patch.bots.GetOr(old_.bots)
              && !Clashes(db.users, id, new_)
    ensures db.connected && UserPatchValid(patch) && HasKey(db.users, id) ==>
              (out.0.status == 409 <==>
                 Clashes(db.users, id, Find(db.users, id).value.(
                   username := patch.username.GetOr(Find(db.users, id).value.username),
                   email := patch.email.GetOr(Find(db.users, id).value.email))))
    ensures out.0.Err? ==> out.1 == db
    ensures forall k :: k != id ==> Find(out.1.users, k) == Find(db.users, k)
    ensures out.1 == db.(users := out.1.users)
    ensures Valid(db) ==> Valid(out.1)
  {
    if !db.connected then (Err(500, NotConnected), db)
    else if !UserPatchValid(patch) then (Err(400, "Validation failed"), db)
    else match Find(db.users, id)
      case None => (Err(404, "User not found"), db)
      case Some(old_) =>
        var u := User(patch.username.GetOr(old_.username), patch.email.GetOr(old_.email),
                      patch.password.GetOr(old_.password), patch.bots.GetOr(old_.bots));
        if Clashes(db.users, id, u) then (Err(409, "User with this email or username already exists"), db)
        else
          var users := Put(db.users, id, u);
          assert forall k :: k != id ==> Find(users, k) == Find(db.users, k) by {
            forall k | k != id ensures Find(users, k) == Find(db.users, k) {
              FindPut(db.users, id, u, k);
            }
          }
          assert ValidUsers(db.users) ==> ValidUsers(users) by {
            if ValidUsers(db.users) {
              var i :| 0 <= i < |db.users| && db.users[i] == Entry(id, old_);
              assert ValidUser(db.users[i].value);
              ReplaceUser(db.users, id, u);
            }
          }
          (Ok(200, Entry(id, u)), db.(users := users))
  }

  /** Removing a user keeps the collection valid. */
  lemma RemoveUser(users: seq<Entry<string, User>>, id: string)
    requires ValidUsers(users)
    ensures ValidUsers(Remove(users, id))
  {
    RemoveUnique(users, id);
    var r := Remove(users, id);
    forall i, j | 0 <= i < |r| && 0 <= j < |r| && i != j
      ensures r[i].value.username != r[j].value.username && r[i].value.email != r[j].value.email
    {
      var a :| 0 <= a < |users| && users[a] == r[i];
      var b :| 0 <= b < |users| && users[b] == r[j];
      assert r[i].key != r[j].key;
    }
    forall i | 0 <= i < |r| ensures ValidUser(r[i].value) {
      var a :| 0 <= a < |users| && users[a] == r[i];
    }
  }

  /** `DELETE /users/:id`. Only the user document goes: the bots it owns keep
      their `ownerId`, which then names no user. */
  function DeleteUser(db: Store, id: string): (out: (Reply<()>, Store))
    ensures out.0.status == 500 <==> !db.connected
    ensures out.0.status == 404 <==> db.connected && !HasKey(db.users, id)
    ensures out.0.Ok? <==> db.connected && HasKey(db.users, id)
    ensures out.0.Ok? ==> out.0.status == 204 && !HasKey(out.1.users, id)
    ensures out.0.Err? ==> out.1 == db
    ensures forall k :: k != id ==> Find(out.1.users, k) == Find(db.users, k)
    ensures out.1 == db.(users := out.1.users)
    ensures Valid(db) ==> Valid(out.1)
  {
    if !db.connected then (Err(500, NotConnected), db)
    else if !HasKey(db.users, id) then (Err(404, "User not found"), db)
    else
      var users := Remove(db.users, id);
      assert forall k :: k != id ==> Find(users, k) == Find(db.users, k) by {
        forall k | k != id ensures Find(users, k) == Find(db.users, k) {
          FindRemove(db.users, id, k);
        }
      }
      assert ValidUsers(db.users) ==> ValidUsers(users) by {
        if ValidUsers(db.users) { RemoveUser(db.users, id); }
      }
      (Ok(204, ()), db.(users := users))
  }

  /** A deleted owner's bots survive, still naming the deleted user. */
  lemma DeletedOwnerDangles()
    ensures var db := Store(true, [Entry("u1", User("alice", "a@example.com", "h", ["b1"]))],
                            [Entry("b1", Bot("Demo", "token", "u1", [], [], Draft))], []);
            var out := DeleteUser(db, "u1");
            && Valid(db)
            && out.0.status == 204
            && Find(out.1.bots, "b1").Some? && Find(out.1.bots, "b1").value.ownerId == "u1"
            && !HasKey(out.1.users, "u1")
  {
    var db := Store(true, [Entry("u1", User("alice", "a@example.com", "h", ["b1"]))],
                    [Entry("b1", Bot("Demo", "token", "u1", [], [], Draft))], []);
    assert db.bots[0].key == "b1";
    assert db.users[0].key == "u1";
    assert Valid(db);
    assert HasKey(db.users, "u1");
  }

  // ----------------------------------------------------------------- bots

  function OwnedBy(ownerId: string): Entry<string, Bot> -> bool {
    (e: Entry<string, Bot>) => e.value.ownerId == ownerId
  }

  /** `GET /bots[?ownerId=o]`: only the `ownerId` query is honoured; any other
      query parameter (such as `status`) is ignored. */
  function ListBots(db: Store, q: BotQuery): (r: seq<Entry<string, Bot>>)
    ensures forall i :: 0 <= i < |r| ==>
              r[i] in db.bots && (Truthy(q.ownerId) ==> r[i].value.ownerId == q.ownerId.value)
    ensures forall i :: 0 <= i < |db.bots| && (Truthy(q.ownerId) ==> db.bots[i].value.ownerId == q.ownerId.value) ==>
              db.bots[i] in r
  {
    if Truthy(q.ownerId) then Seqs.Filter(db.bots, OwnedBy(q.ownerId.value)) else db.bots
  }

  /** `GET /bots/:id`. */
  function GetBot(db: Store, id: string): (r: Reply<Entry<string, Bot>>)
    ensures r.Err? <==> !HasKey(db.bots, id)
    ensures r.Err? ==> r.status == 404
    ensures r.Ok? ==> r.status == 200 && r.value.key == id && r.value in db.bots
  {
    match Find(db.bots, id)
    case None => Err(404, "Bot not found")
    case Some(b) => Ok(200, Entry(id, b))
  }

  /** `new Bot(body)` followed by validation: the required paths, the status
      enum (default `draft`) and the required paths of every command, flow and
      step. */
  function NewBot(body: BotBody): (r: Option<Bot>)
    ensures r.Some? <==>
              && Truthy(body.name) && Truthy(body.token) && Truthy(body.ownerId)
              && ParseStatus(body.status).Some?
              && ValidCommands(body.commands) && ValidFlows(body.flows)
    ensures r.Some? ==>
              && ValidBot(r.value)
              && r.value.name == body.name.value
              && r.value.token == body.token.value
              && r.value.ownerId == body.ownerId.value
              && r.value.commands == body.commands
              && r.value.flows == body.flows
              && r.value.status == ParseStatus(body.status).value
  {
    if && Truthy(body.name) && Truthy(body.token) && Truthy(body.ownerId)
       && ParseStatus(body.status).Some?
       && ValidCommands(body.commands) && ValidFlows(body.flows)
    then Some(Bot(body.name.value, body.token.value, body.ownerId.value, body.commands, body.flows,
                  ParseStatus(body.status).value))
    else None
  }

  /** `POST /bots`: save the bot, then push its id onto its owner's `bots`. */
  function CreateBot(db: Store, body: BotBody, newId: string): (out: (Reply<Entry<string, Bot>>, Store))
    ensures out.0.Ok? <==> NewBot(body).Some? && !HasKey(db.bots, newId)
    ensures out.0.Err? ==> out.0.status == 400 && out.1 == db
    ensures out.0.Ok? ==>
              && out.0.status == 201
              && out.0.value == Entry(newId, NewBot(body).value)
              && out.1.bots == db.bots + [out.0.value]
    ensures out.0.Ok? ==> forall k :: k != body.ownerId.value ==> Find(out.1.users, k) == Find(db.users, k)
    ensures out.0.Ok? && HasKey(db.users, body.ownerId.value) ==>
              var owner := Find(db.users, body.ownerId.value).value;
              Find(out.1.users, body.ownerId.value) == Some(owner.(bots := owner.bots + [newId]))
    ensures out.1.connected == db.connected && out.1.runtime == db.runtime
    ensures Valid(db) ==> Valid(out.1)
  {
    match NewBot(body)
    case None => (Err(400, "Bot validation failed"), db)
    case Some(b) =>
      if HasKey(db.bots, newId) then (Err(400, "Duplicate bot id"), db)
      else
        var users := EditBots(db.users, b.ownerId, bs => bs + [newId]);
        (Ok(201, Entry(newId, b)), db.(bots := Put(db.bots, newId, b), users := users))
  }

  /** The update validators (`runValidators`) on the paths a patch sets: a
      required path may not be set empty, a status must be one of the enum
      values, and commands and flows must have their required paths. */
  predicate PatchValid(p: BotPatch) {
    && (p.name.Some? ==> p.name.value != "")
    && (p.token.Some? ==> p.token.value != "")
    && (p.ownerId.Some? ==> p.ownerId.value != "")
    && (p.status.Some? ==> ParseStatus(p.status).Some?)
    && (p.commands.Some? ==> ValidCommands(p.commands.value))
    && (p.flows.Some? ==> ValidFlows(p.flows.value))
  }

  /** `PUT /bots/:id`: `findByIdAndUpdate(id, {...body}, {runValidators: true})`.
      The owner back-link is not maintained here: a patch that changes
      `ownerId` leaves both users' `bots` as they were. */
  function UpdateBot(db: Store, id: string, patch: BotPatch): (out: (Reply<Entry<string, Bot>>, Store))
    ensures out.0.status == 400 <==> !PatchValid(patch)
    ensures out.0.Ok? ==> out.0.status == 200 && HasKey(db.bots, id) && out.0.value.key == id
    ensures out.0.status == 404 <==> PatchValid(patch) && !HasKey(db.bots, id)
    ensures out.0.Err? ==> out.1 == db
    ensures out.0.Ok? ==>
              var old_ := Find(db.bots, id).value;
              var new_ := out.0.value.value;
              && Find(out.1.bots, id) == Some(new_)
              && new_.name == patch.name.GetOr(old_.name)
              && new_.token == patch.token.GetOr(old_.token)
              && new_.ownerId == patch.ownerId.GetOr(old_.ownerId)
              && new_.commands == patch.commands.GetOr(old_.commands)
              && new_.flows == patch.flows.GetOr(old_.flows)
              && Some(new_.status) == (if patch.status.Some? then ParseStatus(patch.status) else Some(old_.status))
    ensures forall k :: k != id ==> Find(out.1.bots, k) == Find(db.bots, k)
    ensures out.1.users == db.users && out.1.runtime == db.runtime && out.1.connected == db.connected
    ensures Valid(db) ==> Valid(out.1)
  {
    if !PatchValid(patch) then (Err(400, "Validation failed"), db)
    else match Find(db.bots, id)
      case None => (Err(404, "Bot not found"), db)
      case Some(b) =>
        var b' := b.(name := patch.name.GetOr(b.name),
                     token := patch.token.GetOr(b.token),
                     ownerId := patch.ownerId.GetOr(b.ownerId),
                     commands := patch.commands.GetOr(b.commands),
                     flows := patch.flows.GetOr(b.flows),
                     status := if patch.status.Some? then ParseStatus(patch.status).value else b.status);
        var bots := Put(db.bots, id, b');
        assert forall k :: k != id ==> Find(bots, k) == Find(db.bots, k) by {
          forall k | k != id ensures Find(bots, k) == Find(db.bots, k) {
            FindPut(db.bots, id, b', k);
          }
        }
        (Ok(200, Entry(id, b')), db.(bots := bots))
  }

  /** Moving a bot to another owner through `PUT /bots/:id` leaves the old
      owner's `bots` still listing it and the new owner's without it. */
  lemma OwnerMoveLeavesBackLinkStale()
    ensures var alice := Entry("u1", User("alice", "a@example.com", "h", ["b1"]));
            var bob := Entry("u2", User("bob", "b@example.com", "h", []));
            var db := Store(true, [alice, bob], [Entry("b1", Bot("Demo", "token", "u1", [], [], Draft))], []);
            var out := UpdateBot(db, "b1", BotPatch(None, None, Some("u2"), None, None, None));
            && out.0.status == 200
            && Find(out.1.bots, "b1").value.ownerId == "u2"
            && "b1" in Find(out.1.users, "u1").value.bots
            && "b1" !in Find(out.1.users, "u2").value.bots
  {
    var alice := Entry("u1", User("alice", "a@example.com", "h", ["b1"]));
    var bob := Entry("u2", User("bob", "b@example.com", "h", []));
    assert Find([alice, bob], "u1") == Some(alice.value) by { FindEntry([alice, bob], 0); }
    assert Find([alice, bob], "u2") == Some(bob.value) by { FindEntry([alice, bob], 1); }
  }

  /** `$pull`: every occurrence of `id` leaves the list. */
  function Without(ids: seq<string>, id: string): (r: seq<string>)
    ensures id !in r
    ensures forall x :: x in ids && x != id ==> x in r
    ensures forall x :: x in r ==> x in ids
  {
    Seqs.Filter(ids, x => x != id)
  }

  /** `$pull` keeps the order of the remaining ids: pulling from a
      concatenation pulls from each part, and a single id stays exactly when
      it is not the pulled one. */
  lemma WithoutKeepsOrder(a: seq<string>, b: seq<string>, id: string)
    ensures Without(a + b, id) == Without(a, id) + Without(b, id)
    ensures forall x :: Without([x], id) == (if x == id then [] else [x])
  {
    Seqs.FilterAppend(a, b, x => x != id);
  }

  /** `DELETE /bots/:id`: pull the id from the owner's `bots`, then delete the
      bot. */
  function DeleteBot(db: Store, id: string): (out: (Reply<()>, Store))
    ensures out.0.Err? <==> !HasKey(db.bots, id)
    ensures out.0.Err? ==> out.0.status == 404 && out.1 == db
    ensures out.0.Ok? ==> out.0.status == 204 && !HasKey(out.1.bots, id)
    ensures forall k :: k != id ==> Find(out.1.bots, k) == Find(db.bots, k)
    ensures out.0.Ok? ==>
              var owner := Find(db.bots, id).value.ownerId;
              && (forall k :: k != owner ==> Find(out.1.users, k) == Find(db.users, k))
              && (owner != "" && HasKey(db.users, owner) ==>
                    var u := Find(db.users, owner).value;
                    Find(out.1.users, owner) == Some(u.(bots := Without(u.bots, id))))
    ensures out.1.connected == db.connected && out.1.runtime == db.runtime
    ensures Valid(db) ==> Valid(out.1)
  {
    match Find(db.bots, id)
    case None => (Err(404, "Bot not found"), db)
    case Some(b) =>
      var users := if b.ownerId != "" then EditBots(db.users, b.ownerId, bs => Without(bs, id)) else db.users;
      var bots := Remove(db.bots, id);
      assert ValidBots(db.bots) ==> UniqueKeys(bots) by {
        if ValidBots(db.bots) { RemoveUnique(db.bots, id); }
      }
      assert forall k :: k != id ==> Find(bots, k) == Find(db.bots, k) by {
        forall k | k != id ensures Find(bots, k) == Find(db.bots, k) {
          FindRemove(db.bots, id, k);
        }
      }
      (Ok(204, ()), db.(users := users, bots := bots))
  }

  // ------------------------------------------------------- runtime records

  /** `GET /runtime/:botId/users/:userId`. */
  function GetRuntimeData(db: Store, botId: string, userId: string): (r: Reply<RuntimeData>)
    ensures r.Err? <==> !HasKey(db.runtime, RuntimeKey(botId, userId))
    ensures r.Err? ==> r.status == 404
    ensures r.Ok? ==> r.status == 200 && Entry(RuntimeKey(botId, userId), r.value) in db.runtime
  {
    match Find(db.runtime, RuntimeKey(botId, userId))
    case None => Err(404, "Runtime data not found")
    case Some(d) => Ok(200, d)
  }

  /** The pair the record belongs to after the update: the body's `botId`
      and `userId` override the URL's. */
  function Target(key: RuntimeKey, patch: RuntimePatch): RuntimeKey {
    RuntimeKey(patch.botId.GetOr(key.botId), patch.userId.GetOr(key.userId))
  }

  /** The upsert throws, answered 400: setting a key path empty fails its
      `required` validator, and moving the record onto a pair that already
      has one violates the unique compound index. */
  predicate UpsertRefused(db: Store, key: RuntimeKey, patch: RuntimePatch) {
    || patch.botId == Some("")
    || patch.userId == Some("")
    || (Target(key, patch) != key && HasKey(db.runtime, Target(key, patch)))
  }

  /** What an upsert of `patch` at time `now` must leave for a pair whose
      stored record was `prior`: every supplied field replaces the stored one,
      every other field keeps its stored value (the URL's pair or the defaults
      on insert), and `lastInteraction` is `now`. */
  predicate Upserted(prior: Option<RuntimeData>, key: RuntimeKey, patch: RuntimePatch, now: int, d: RuntimeData) {
    && d.botId == (if patch.botId.Some? then patch.botId.value
                   else if prior.Some? then prior.value.botId else key.botId)
    && d.userId == (if patch.userId.Some? then patch.userId.value
                    else if prior.Some? then prior.value.userId else key.userId)
    && d.currentFlow == (if patch.currentFlow.Some? then patch.currentFlow
                         else if prior.Some? then prior.value.currentFlow else None)
    && d.currentStep == (if patch.currentStep.Some? then patch.currentStep
                         else if prior.Some? then prior.value.currentStep else None)
    && d.conversationState == (if patch.conversationState.Some? then patch.conversationState.value
                               else if prior.Some? then prior.value.conversationState else map[])
    && d.lastInteraction == now
  }

  /** The document `findOneAndUpdate({botId, userId}, {...body, lastInteraction:
      now}, {upsert: true, setDefaultsOnInsert: true})` leaves behind. */
  function Merge(prior: Option<RuntimeData>, key: RuntimeKey, patch: RuntimePatch, now: int): RuntimeData {
    match prior
    case None =>
      var t := Target(key, patch);
      RuntimeData(t.botId, t.userId, patch.currentFlow, patch.currentStep,
                  patch.conversationState.GetOr(map[]), now)
    case Some(old_) =>
      old_.(botId := patch.botId.GetOr(old_.botId),
            userId := patch.userId.GetOr(old_.userId),
            currentFlow := if patch.currentFlow.Some? then patch.currentFlow else old_.currentFlow,
            currentStep := if patch.currentStep.Some? then patch.currentStep else old_.currentStep,
            conversationState := patch.conversationState.GetOr(old_.conversationState),
            lastInteraction := now)
  }

  /** The records after the one under `from` is written as `d` under `to`:
      in place when the pair is unchanged, otherwise removed and re-added. */
  function Relocate(rs: seq<Entry<RuntimeKey, RuntimeData>>, from: RuntimeKey, to: RuntimeKey, d: RuntimeData)
    : (r: seq<Entry<RuntimeKey, RuntimeData>>)
    ensures Find(r, to) == Some(d)
    ensures to != from ==> !HasKey(r, from)
    ensures forall k :: k != from && k != to ==> Find(r, k) == Find(rs, k)
  {
    var cleared := if to == from then rs else Remove(rs, from);
    var r := Put(cleared, to, d);
    assert forall k :: k != from && k != to ==> Find(r, k) == Find(rs, k) by {
      forall k | k != from && k != to
        ensures Find(r, k) == Find(rs, k)
      {
        FindPut(cleared, to, d, k);
        if to != from { FindRemove(rs, from, k); }
      }
    }
    assert to != from ==> !HasKey(r, from) by {
      if to != from { FindPut(cleared, to, d, from); }
    }
    r
  }

  lemma PutValidRuntime(rs: seq<Entry<RuntimeKey, RuntimeData>>, k: RuntimeKey, d: RuntimeData)
    requires ValidRuntime(rs) && Keyed(Entry(k, d))
    ensures ValidRuntime(Put(rs, k, d))
  {
    var r := Put(rs, k, d);
    forall i | 0 <= i < |r| ensures Keyed(r[i]) {
      if !HasKey(rs, k) && i == |rs| {
        assert r[i] == Entry(k, d);
      } else if HasKey(rs, k) && i == IndexOf(rs, k) {
        assert r[i] == Entry(k, d);
      } else {
        assert r[i] == rs[i];
      }
    }
  }

  lemma RemoveValidRuntime(rs: seq<Entry<RuntimeKey, RuntimeData>>, k: RuntimeKey)
    requires ValidRuntime(rs)
    ensures ValidRuntime(Remove(rs, k))
  {
    RemoveUnique(rs, k);
    var r := Remove(rs, k);
    forall i | 0 <= i < |r| ensures Keyed(r[i]) {
      var j :| 0 <= j < |rs| && rs[j] == r[i];
    }
  }

  /** On a valid store the merged record carries its target pair. */
  lemma MergeKeyed(db: Store, key: RuntimeKey, patch: RuntimePatch, now: int)
    requires ValidRuntime(db.runtime)
    ensures var d := Merge(Find(db.runtime, key), key, patch, now);
            d.botId == Target(key, patch).botId && d.userId == Target(key, patch).userId
  {
    var prior := Find(db.runtime, key);
    if prior.Some? {
      var i :| 0 <= i < |db.runtime| && db.runtime[i] == Entry(key, prior.value);
      assert Keyed(db.runtime[i]);
    }
  }

  lemma MergeUpserted(prior: Option<RuntimeData>, key: RuntimeKey, patch: RuntimePatch, now: int)
    ensures Upserted(prior, key, patch, now, Merge(prior, key, patch, now))
  {
  }

  /** The store change of the upsert, shared by both status conventions
      below: `None` when it throws, otherwise the record and the new store.
      The record ends up under its target pair; when that differs from the
      URL's pair, the URL's pair no longer has a record. */
  function Upsert(db: Store, key: RuntimeKey, patch: RuntimePatch, now: int): (out: Option<(RuntimeData, Store)>)
    ensures out.None? <==> UpsertRefused(db, key, patch)
    ensures out.Some? ==>
              var d := out.value.0;
              var db' := out.value.1;
              && Upserted(Find(db.runtime, key), key, patch, now, d)
              && Find(db'.runtime, Target(key, patch)) == Some(d)
              && (Target(key, patch) != key ==> !HasKey(db'.runtime, key))
              && (forall k :: k != key && k != Target(key, patch) ==> Find(db'.runtime, k) == Find(db.runtime, k))
              && db' == db.(runtime := db'.runtime)
    ensures out.Some? && ValidRuntime(db.runtime) ==>
              out.value.0.botId == Target(key, patch).botId && out.value.0.userId == Target(key, patch).userId
    ensures out.Some? && ValidRuntime(db.runtime) && key.botId != "" && key.userId != "" ==>
              ValidRuntime(out.value.1.runtime)
  {
    if UpsertRefused(db, key, patch) then None
    else
      var t := Target(key, patch);
      var d := Merge(Find(db.runtime, key), key, patch, now);
      MergeUpserted(Find(db.runtime, key), key, patch, now);
      assert ValidRuntime(db.runtime) && key.botId != "" && key.userId != "" ==>
               ValidRuntime(Relocate(db.runtime, key, t, d)) by {
        if ValidRuntime(db.runtime) && key.botId != "" && key.userId != "" {
          MergeKeyed(db, key, patch, now);
          if t == key {
            PutValidRuntime(db.runtime, t, d);
          } else {
            RemoveValidRuntime(db.runtime, key);
            PutValidRuntime(Remove(db.runtime, key), t, d);
          }
        }
      }
      assert ValidRuntime(db.runtime) ==> d.botId == t.botId && d.userId == t.userId by {
        if ValidRuntime(db.runtime) { MergeKeyed(db, key, patch, now); }
      }
      Some((d, db.(runtime := Relocate(db.runtime, key, t, d))))
  }

  /** `POST /runtime/:botId/users/:userId` with the status it evidently
      intends: 201 when the upsert inserted the record, 200 when it updated
      one, 400 when it throws. Afterwards the record, carrying the supplied
      fields, is the only one under its pair, and every other pair's record
      is untouched. */
  function UpsertRuntimeData(db: Store, botId: string, userId: string, patch: RuntimePatch, now: int)
    : (out: (Reply<RuntimeData>, Store))
    ensures out.0.status == 400 <==> UpsertRefused(db, RuntimeKey(botId, userId), patch)
    ensures out.0.status == 201 <==>
              !UpsertRefused(db, RuntimeKey(botId, userId), patch) && !HasKey(db.runtime, RuntimeKey(botId, userId))
    ensures out.0.status == 200 <==>
              !UpsertRefused(db, RuntimeKey(botId, userId), patch) && HasKey(db.runtime, RuntimeKey(botId, userId))
    ensures out.0.Err? ==> out.1 == db
    ensures out.0.Ok? ==>
              var key := RuntimeKey(botId, userId);
              var t := Target(key, patch);
              && Upserted(Find(db.runtime, key), key, patch, now, out.0.value)
              && Find(out.1.runtime, t) == Some(out.0.value)
              && (t != key ==> !HasKey(out.1.runtime, key))
              && (forall k :: k != key && k != t ==> Find(out.1.runtime, k) == Find(db.runtime, k))
    ensures out.1 == db.(runtime := out.1.runtime)
    ensures Valid(db) && out.0.Ok? ==>
              out.0.value.botId == Target(RuntimeKey(botId, userId), patch).botId
              && out.0.value.userId == Target(RuntimeKey(botId, userId), patch).userId
    ensures Valid(db) && botId != "" && userId != "" ==> Valid(out.1)
  {
    var key := RuntimeKey(botId, userId);
    match Upsert(db, key, patch, now)
    case None => (Err(400, "Validation failed"), db)
    case Some((d, db')) => (Ok(if HasKey(db.runtime, key) then 200 else 201, d), db')
  }

  /** The same route as written: the status is chosen by `runtimeData.isNew`,
      which is false on every document `findOneAndUpdate` returns, so the
      reply is 200 whether the record was inserted or updated. */
  function UpsertRuntimeDataAsWritten(db: Store, botId: string, userId: string, patch: RuntimePatch, now: int)
    : (out: (Reply<RuntimeData>, Store))
    ensures out.0.status == 400 <==> UpsertRefused(db, RuntimeKey(botId, userId), patch)
    ensures out.0.Ok? <==> !UpsertRefused(db, RuntimeKey(botId, userId), patch)
    ensures out.0.Ok? ==> out.0.status == 200
    ensures out.0.Ok? ==> Find(out.1.runtime, Target(RuntimeKey(botId, userId), patch)) == Some(out.0.value)
    ensures out.1 == UpsertRuntimeData(db, botId, userId, patch, now).1
  {
    match Upsert(db, RuntimeKey(botId, userId), patch, now)
    case None => (Err(400, "Validation failed"), db)
    case Some((d, db')) => (Ok(200, d), db')
  }

  /** An insert into an empty collection is reported as an update. */
  lemma InsertReportedAsUpdate(now: int)
    ensures var db := Store(true, [], [], []);
            var patch := RuntimePatch(None, None, Some("welcome"), None, None);
            var out := UpsertRuntimeDataAsWritten(db, "bot", "user", patch, now);
            && !HasKey(db.runtime, RuntimeKey("bot", "user"))
            && HasKey(out.1.runtime, RuntimeKey("bot", "user"))
            && out.0.status == 200
            && UpsertRuntimeData(db, "bot", "user", patch, now).0.status == 201
  {
  }

  /** A body naming another user moves the record: afterwards the URL's pair
      has no record, so `GET` on it answers 404. */
  lemma BodyKeyMovesRecord(now: int)
    ensures var d := RuntimeData("bot", "u1", None, None, map[], 0);
            var db := Store(true, [], [], [Entry(RuntimeKey("bot", "u1"), d)]);
            var patch := RuntimePatch(None, Some("u2"), None, None, None);
            var out := UpsertRuntimeData(db, "bot", "u1", patch, now);
            && out.0.status == 200
            && GetRuntimeData(out.1, "bot", "u1").status == 404
            && GetRuntimeData(out.1, "bot", "u2").status == 200
  {
  }
}
