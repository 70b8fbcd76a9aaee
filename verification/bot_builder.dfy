/** The bot builder service: creating a bot with its default commands,
    appending commands and flows, and deploying. Its calls to the
    persistence service are direct calls of the `DbService` handlers, and
    its deploy request is a direct call of `BotRuntime.Deploy`; a reply of
    404 becomes 404 and any other failure 500. Whether the runtime manages
    to create the bot instance is an input. */
module BotBuilder {
  import opened Wrappers
  import opened Assoc
  import opened Models
  import opened DbService
  import BotRuntime
  import Decimal

  /** Body of `POST /`. */
  datatype NewBotRequest = NewBotRequest(name: Option<string>, ownerId: Option<string>, token: Option<string>)

  /** Body of `POST /commands/:botId`. */
  datatype CommandRequest = CommandRequest(name: Option<string>, description: Option<string>, response: Option<string>)

  /** Body of `POST /:botId/flows`; `steps` is `None` when it is missing or
      not an array. */
  datatype FlowRequest = FlowRequest(name: Option<string>, trigger: Option<string>, steps: Option<seq<Step>>)

  /** No two commands of a bot share a name. */
  predicate UniqueCommandNames(cs: seq<Command>) {
    forall i, j :: 0 <= i < j < |cs| ==> cs[i].name != cs[j].name
  }

  predicate HasCommand(cs: seq<Command>, name: string) {
    exists i :: 0 <= i < |cs| && cs[i].name == name
  }

  /** The bot document `POST /` saves. */
  function DefaultBot(name: string, ownerId: string, token: string): BotBody {
    BotBody(Some(name), Some(token), Some(ownerId),
            [ Command("start", Some("Start the bot"), Some("Welcome to " + name + "!")),
              Command("help", Some("Get help"), Some("This is " + name + ". Available commands: /start, /help")) ],
            [], Some("inactive"))
  }

  /** `POST /`: a bot needs a name, an owner and a token; it is saved with a
      `start` and a `help` command, no flows, and status `inactive`. */
  function CreateBot(db: Store, req: NewBotRequest, newId: string): (out: (Reply<Entry<string, Bot>>, Store))
    ensures out.0.status == 400 <==> !(Truthy(req.name) && Truthy(req.ownerId) && Truthy(req.token))
    ensures out.0.Err? ==> out.1 == db
    ensures out.0.status == 500 <==> out.0.status != 400 && HasKey(db.bots, newId)
    ensures out.0.Ok? ==>
              var b := out.0.value.value;
              && out.0.status == 201
              && out.0.value.key == newId
              && out.1.bots == db.bots + [out.0.value]
              && b.name == req.name.value && b.ownerId == req.ownerId.value && b.token == req.token.value
              && |b.commands| == 2
              && b.commands[0].name == "start"
              && b.commands[0].response == Some("Welcome to " + req.name.value + "!")
              && b.commands[1].name == "help"
              && b.commands[1].response == Some("This is " + req.name.value + ". Available commands: /start, /help")
              && UniqueCommandNames(b.commands)
              && b.flows == []
              && b.status == Inactive
    ensures Valid(db) ==> Valid(out.1)
  {
    if !(Truthy(req.name) && Truthy(req.ownerId) && Truthy(req.token)) then
      (Err(400, "Bot name, owner ID and token are required"), db)
    else
      var body := DefaultBot(req.name.value, req.ownerId.value, req.token.value);
      assert ParseStatus(body.status) == Some(Inactive);
      var (saved, db') := DbService.CreateBot(db, body, newId);
      if saved.Ok? then (Ok(201, saved.value), db')
      else (Err(500, "Failed to save bot to database"), db)
  }

  /** `POST /commands/:botId`: a command needs a name, a description and a
      response, and its name must be new to the bot; it is appended after the
      existing commands. */
  function AddCommand(db: Store, botId: string, req: CommandRequest): (out: (Reply<Command>, Store))
    ensures out.0.status == 400 <==> !(Truthy(req.name) && Truthy(req.description) && Truthy(req.response))
    ensures out.0.status == 404 <==> out.0.status != 400 && !HasKey(db.bots, botId)
    ensures out.0.status == 409 <==>
              && Truthy(req.name) && Truthy(req.description) && Truthy(req.response)
              && HasKey(db.bots, botId)
              && HasCommand(Find(db.bots, botId).value.commands, req.name.value)
    ensures out.0.Err? ==> out.1 == db
    ensures out.0.Ok? ==>
              HasKey(db.bots, botId) && req.name.Some? &&
              var old_ := Find(db.bots, botId).value;
              var cmd := Command(req.name.value, req.description, req.response);
              && out.0 == Ok(201, cmd)
              && Find(out.1.bots, botId) == Some(old_.(commands := old_.commands + [cmd]))
              && (UniqueCommandNames(old_.commands) ==> UniqueCommandNames(old_.commands + [cmd]))
    ensures forall k :: k != botId ==> Find(out.1.bots, k) == Find(db.bots, k)
    ensures out.1.users == db.users && out.1.runtime == db.runtime
    ensures Valid(db) ==> Valid(out.1)
    ensures Valid(db) ==> out.0.status in {201, 400, 404, 409}
  {
    if !(Truthy(req.name) && Truthy(req.description) && Truthy(req.response)) then
      (Err(400, "Command name, description, and response are required"), db)
    else match GetBot(db, botId)
      case Err(_, _) => (Err(404, "Bot not found"), db)
      case Ok(_, doc) =>
        if HasCommand(doc.value.commands, req.name.value) then (Err(409, "Command already exists"), db)
        else
          var cmd := Command(req.name.value, req.description, req.response);
          var (updated, db') := UpdateBot(db, botId, BotPatch(None, None, None, Some(doc.value.commands + [cmd]), None, None));
          if updated.Ok? then (Ok(201, cmd), db')
          else (Err(500, "Failed to add command to bot"), db)
  }

  /** The id a flow created at time `now` (milliseconds) receives. */
  function FlowId(now: nat): string {
    "flow-" + Decimal.Show(now)
  }

  /** Flows created at different milliseconds get different ids. */
  lemma FlowIdInjective(a: nat, b: nat)
    requires FlowId(a) == FlowId(b)
    ensures a == b
  {
    assert FlowId(a)[5..] == Decimal.Show(a);
    assert FlowId(b)[5..] == Decimal.Show(b);
    Decimal.ShowInjective(a, b);
  }

  /** `POST /:botId/flows`: a flow needs a name, a trigger and a non-empty
      step array; it is appended after the existing flows under the id
      `flow-<now>`. Steps without an id or type fail the persistence
      service's validation, which the builder reports as 500. */
  function AddFlow(db: Store, botId: string, req: FlowRequest, now: nat): (out: (Reply<Flow>, Store))
    ensures out.0.status == 400 <==>
              !(Truthy(req.name) && Truthy(req.trigger) && req.steps.Some? && |req.steps.value| > 0)
    ensures out.0.status == 404 <==> out.0.status != 400 && !HasKey(db.bots, botId)
    ensures out.0.Err? ==> out.1 == db
    ensures out.0.Ok? ==>
              HasKey(db.bots, botId) && req.steps.Some? &&
              var old_ := Find(db.bots, botId).value;
              var flow := Flow(FlowId(now), req.name, req.trigger, req.steps.value);
              && out.0 == Ok(201, flow)
              && Find(out.1.bots, botId) == Some(old_.(flows := old_.flows + [flow]))
    ensures forall k :: k != botId ==> Find(out.1.bots, k) == Find(db.bots, k)
    ensures out.1.users == db.users && out.1.runtime == db.runtime
    ensures Valid(db) ==> Valid(out.1)
    ensures Valid(db) && out.0.status !in {400, 404} ==> (out.0.Ok? <==> ValidSteps(req.steps.value))
  {
    if !(Truthy(req.name) && Truthy(req.trigger) && req.steps.Some? && |req.steps.value| > 0) then
      (Err(400, "Flow name, trigger, and steps are required"), db)
    else match GetBot(db, botId)
      case Err(_, _) => (Err(404, "Bot not found"), db)
      case Ok(_, doc) =>
        var flow := Flow(FlowId(now), req.name, req.trigger, req.steps.value);
        var flows := doc.value.flows + [flow];
        assert ValidFlows(doc.value.flows) && ValidSteps(req.steps.value) ==> ValidFlows(flows);
        assert ValidFlows(flows) ==> ValidSteps(req.steps.value) by {
          if ValidFlows(flows) { assert flows[|flows| - 1] == flow; }
        }
        var (updated, db') := UpdateBot(db, botId, BotPatch(None, None, None, None, Some(flows), None));
        if updated.Ok? then (Ok(201, flow), db')
        else (Err(500, "Failed to add flow to bot"), db)
  }

  /** The end of `POST /:botId/deploy`, once the runtime has answered `sent`:
      a refusal is answered 500; otherwise the bot is marked `active` with
      `PUT /bots/:botId`, whose 404 is passed on. */
  function MarkDeployed(db: Store, botId: string, sent: Reply<string>): (out: (Reply<Entry<string, Bot>>, Store))
    ensures sent.Err? ==> out == (Err(500, "Failed to deploy bot"), db)
    ensures out.0.Ok? <==> sent.Ok? && HasKey(db.bots, botId)
    ensures out.0.Err? ==> out.1 == db
    ensures out.0.Ok? ==>
              var old_ := Find(db.bots, botId).value;
              && out.0 == Ok(200, Entry(botId, old_.(status := Active)))
              && Find(out.1.bots, botId) == Some(old_.(status := Active))
    ensures forall k :: k != botId ==> Find(out.1.bots, k) == Find(db.bots, k)
    ensures out.1.users == db.users && out.1.runtime == db.runtime
    ensures Valid(db) ==> Valid(out.1)
  {
    if sent.Err? then (Err(500, "Failed to deploy bot"), db)
    else
      match UpdateBot(db, botId, BotPatch(None, None, None, None, None, Some("active")))
      case (Ok(_, e), db') => (Ok(200, e), db')
      case (Err(status, _), _) => (Err(if status == 404 then 404 else 500, "Failed to deploy bot"), db)
  }

  /** `POST /:botId/deploy` as written: the stored bot is forwarded to the
      runtime as it comes back from `GET /bots/:botId`, which carries `_id`
      but no `id`, so the runtime refuses it with 400 and every deploy of a
      stored bot ends in 500 with nothing changed. */
  function DeployBotAsWritten(db: Store, rt: BotRuntime.Runtime, botId: string, created: bool)
    : (out: (Reply<Entry<string, Bot>>, Store, BotRuntime.Runtime))
    ensures out.0.status == 404 <==> !HasKey(db.bots, botId)
    ensures HasKey(db.bots, botId) ==> out.0.status == 500
    ensures out.1 == db && out.2 == rt
  {
    match GetBot(db, botId)
    case Err(_, _) => (Err(404, "Bot not found"), db, rt)
    case Ok(_, doc) =>
      var (sent, rt') := BotRuntime.Deploy(rt, BotRuntime.DocConfig(doc), created);
      var (reply, db') := MarkDeployed(db, botId, sent);
      (reply, db', rt')
  }

  /** `POST /:botId/deploy` with the stored bot sent under its id: the
      runtime starts it (stopping an earlier instance under the same id),
      and only then is it marked `active`; a bot whose instance cannot be
      created stays as stored and is no longer running. */
  function DeployBot(db: Store, rt: BotRuntime.Runtime, botId: string, created: bool)
    : (out: (Reply<Entry<string, Bot>>, Store, BotRuntime.Runtime))
    ensures out.0.status == 404 <==> !HasKey(db.bots, botId)
    ensures !HasKey(db.bots, botId) ==> out.2 == rt
    ensures Valid(db) && botId != "" ==> (out.0.Ok? <==> HasKey(db.bots, botId) && created)
    ensures out.0.Ok? ==> HasKey(db.bots, botId) && created
    ensures out.0.Ok? ==>
              var old_ := Find(db.bots, botId).value;
              && out.0 == Ok(200, Entry(botId, old_.(status := Active)))
              && Find(out.1.bots, botId) == Some(old_.(status := Active))
              && Find(out.2.bots, botId)
                 == Some(BotRuntime.CreateInstance(BotRuntime.DocConfig(Entry(botId, old_)).(id := Some(botId))))
    ensures out.0.Err? ==> out.1 == db
    ensures Valid(db) && botId != "" && HasKey(db.bots, botId) && !created ==> !HasKey(out.2.bots, botId)
    ensures forall k :: k != botId ==> Find(out.1.bots, k) == Find(db.bots, k)
    ensures forall k :: k != botId ==> Find(out.2.bots, k) == Find(rt.bots, k)
    ensures out.1.users == db.users && out.1.runtime == db.runtime
    ensures Valid(db) ==> Valid(out.1)
    ensures BotRuntime.Consistent(rt) ==> BotRuntime.Consistent(out.2)
  {
    match GetBot(db, botId)
    case Err(_, _) => (Err(404, "Bot not found"), db, rt)
    case Ok(_, doc) =>
      assert Valid(db) ==> doc.value.name != "" by {
        if Valid(db) {
          var i :| 0 <= i < |db.bots| && db.bots[i] == doc;
          assert ValidBot(db.bots[i].value);
        }
      }
      var (sent, rt') := BotRuntime.Deploy(rt, BotRuntime.DocConfig(doc).(id := Some(botId)), created);
      var (reply, db') := MarkDeployed(db, botId, sent);
      (reply, db', rt')
  }
}
