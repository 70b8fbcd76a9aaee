/** The bot runtime service: the registry `activeBots` of live bot instances,
    its deploy / undeploy / listing / simulation handlers and the startup
    recovery. Each handler is a transition `(state, request) -> (reply,
    state')`. The registry is an insertion-ordered table (a JavaScript `Map`);
    the Telegram sessions that `start()` launches and `stop()` closes are
    recorded as `Started` / `Stopped` events in `log`. */
module BotRuntime {
  import opened Wrappers
  import opened Assoc
  import opened Models
  import Seqs

  /** A bot configuration as JSON: the body of `POST /deploy`, or a stored
      bot document. `docId` is the document's `_id`. */
  datatype BotConfig = BotConfig(
    docId: Option<string>,
    id: Option<string>,
    name: Option<string>,
    token: Option<string>,
    commands: Option<seq<Command>>,
    flows: Option<seq<Flow>>)

  /** What `createBotInstance` builds. */
  datatype Instance = Instance(
    id: Option<string>,
    name: Option<string>,
    token: Option<string>,
    commands: Option<seq<Command>>,
    flows: Option<seq<Flow>>)

  /** `start()` launching an instance's session under a registry key, and
      `stop()` closing it. */
  datatype Event = Started(key: string, instance: Instance) | Stopped(key: string, instance: Instance)

  datatype Runtime = Runtime(bots: seq<Entry<string, Instance>>, log: seq<Event>)

  /** One row of `GET /deployed`. */
  datatype Listing = Listing(id: Option<string>, name: Option<string>)

  /** The reply of the flow simulation: the first step of the flow, or the
      `{error: 'Flow not found'}` object (sent with status 200). */
  datatype FlowView = FlowNotFound | FirstStep(message: Option<string>, options: seq<StepOption>)

  // ------------------------------------------------------------ sessions

  /** The registry the events rebuild: a start sets the key, a stop deletes it. */
  function Replay(log: seq<Event>): seq<Entry<string, Instance>>
    decreases |log|
  {
    if |log| == 0 then []
    else
      var prev := Replay(log[..|log| - 1]);
      match log[|log| - 1]
      case Started(k, i) => Put(prev, k, i)
      case Stopped(k, _) => Remove(prev, k)
  }

  /** Sessions never overlap for one key: an instance is started only under a
      key with no live session, and a stop closes the session live under its
      key. */
  predicate Bracketed(log: seq<Event>)
    decreases |log|
  {
    if |log| == 0 then true
    else
      var prev := Replay(log[..|log| - 1]);
      && Bracketed(log[..|log| - 1])
      && match log[|log| - 1]
         case Started(k, _) => !HasKey(prev, k)
         case Stopped(k, i) => Find(prev, k) == Some(i)
  }

  /** The registry holds exactly the instances whose session is live, one
      session per key. */
  predicate Consistent(rt: Runtime) {
    Bracketed(rt.log) && rt.bots == Replay(rt.log)
  }

  /** Replaying any log yields a table with at most one entry per key. */
  lemma {:induction false} ReplayUnique(log: seq<Event>)
    ensures UniqueKeys(Replay(log))
    decreases |log|
  {
    if |log| > 0 {
      var prev := log[..|log| - 1];
      ReplayUnique(prev);
      if log[|log| - 1].Stopped? {
        RemoveUnique(Replay(prev), log[|log| - 1].key);
      }
    }
  }

  /** A consistent registry has at most one entry per bot id. */
  lemma OneEntryPerId(rt: Runtime)
    requires Consistent(rt)
    ensures UniqueKeys(rt.bots)
  {
    ReplayUnique(rt.log);
  }

  /** `existing.stop(); activeBots.delete(key)`. */
  function Unregister(rt: Runtime, key: string): (r: Runtime)
    requires HasKey(rt.bots, key)
    ensures r.bots == Remove(rt.bots, key)
    ensures r.log == rt.log + [Stopped(key, Find(rt.bots, key).value)]
    ensures Consistent(rt) ==> Consistent(r)
  {
    var e := Stopped(key, Find(rt.bots, key).value);
    assert (rt.log + [e])[..|rt.log|] == rt.log;
    Runtime(Remove(rt.bots, key), rt.log + [e])
  }

  /** `bot.start(); activeBots.set(key, bot)`. */
  function Register(rt: Runtime, key: string, inst: Instance): (r: Runtime)
    ensures r.bots == Put(rt.bots, key, inst)
    ensures r.log == rt.log + [Started(key, inst)]
    ensures Consistent(rt) && !HasKey(rt.bots, key) ==> Consistent(r)
  {
    var e := Started(key, inst);
    assert (rt.log + [e])[..|rt.log|] == rt.log;
    Runtime(Put(rt.bots, key, inst), rt.log + [e])
  }

  // ------------------------------------------------------------ instances

  /** `botConfig._id || botConfig.id`. */
  function InstanceId(cfg: BotConfig): Option<string> {
    if Truthy(cfg.docId) then cfg.docId else cfg.id
  }

  /** `createBotInstance` when it succeeds. */
  function CreateInstance(cfg: BotConfig): Instance {
    Instance(InstanceId(cfg), cfg.name, cfg.token, cfg.commands, cfg.flows)
  }

  // ------------------------------------------------------------- handlers

  /** `POST /deploy`. A configuration without a truthy `id` or `name` is
      refused. Otherwise a live instance under `id` is stopped and removed
      first; then the new instance is created (`created` says whether
      `createBotInstance` succeeded), started and registered. */
  function Deploy(rt: Runtime, cfg: BotConfig, created: bool): (out: (Reply<string>, Runtime))
    ensures out.0.status == 400 <==> !(Truthy(cfg.id) && Truthy(cfg.name))
    ensures out.0.status == 400 ==> out.1 == rt
    ensures rt.log <= out.1.log
    ensures Truthy(cfg.id) && Truthy(cfg.name) ==>
              var key := cfg.id.value;
              && (forall k :: k != key ==> Find(out.1.bots, k) == Find(rt.bots, k))
              && (HasKey(rt.bots, key) ==>
                    |out.1.log| > |rt.log| && out.1.log[|rt.log|] == Stopped(key, Find(rt.bots, key).value))
              && (created ==>
                    && out.0 == Ok(200, key)
                    && Find(out.1.bots, key) == Some(CreateInstance(cfg))
                    && |out.1.log| == |rt.log| + (if HasKey(rt.bots, key) then 2 else 1)
                    && out.1.log[|out.1.log| - 1] == Started(key, CreateInstance(cfg)))
              && (!created ==>
                    && out.0.status == 500
                    && !HasKey(out.1.bots, key)
                    && |out.1.log| == |rt.log| + (if HasKey(rt.bots, key) then 1 else 0))
    ensures Consistent(rt) ==> Consistent(out.1)
  {
    if !(Truthy(cfg.id) && Truthy(cfg.name)) then (Err(400, "Invalid bot configuration"), rt)
    else
      var key := cfg.id.value;
      var cleared := if HasKey(rt.bots, key) then Unregister(rt, key) else rt;
      assert !HasKey(cleared.bots, key);
      assert forall k :: k != key ==> Find(cleared.bots, k) == Find(rt.bots, k) by {
        forall k | k != key ensures Find(cleared.bots, k) == Find(rt.bots, k) {
          FindRemove(rt.bots, key, k);
        }
      }
      if !created then (Err(500, "Failed to create bot instance"), cleared)
      else
        var inst := CreateInstance(cfg);
        var r := Register(cleared, key, inst);
        assert forall k :: k != key ==> Find(r.bots, k) == Find(cleared.bots, k) by {
          forall k | k != key ensures Find(r.bots, k) == Find(cleared.bots, k) {
            FindPut(cleared.bots, key, inst, k);
          }
        }
        (Ok(200, key), r)
  }

  /** `POST /undeploy/:botId`. */
  function Undeploy(rt: Runtime, botId: string): (out: (Reply<string>, Runtime))
    ensures out.0.status == 404 <==> !HasKey(rt.bots, botId)
    ensures out.0.status == 404 ==> out.1 == rt
    ensures HasKey(rt.bots, botId) ==>
              && out.0.status == 200
              && !HasKey(out.1.bots, botId)
              && out.1.log == rt.log + [Stopped(botId, Find(rt.bots, botId).value)]
    ensures forall k :: k != botId ==> Find(out.1.bots, k) == Find(rt.bots, k)
    ensures Consistent(rt) ==> Consistent(out.1)
  {
    if !HasKey(rt.bots, botId) then (Err(404, "Bot not deployed"), rt)
    else
      var r := Unregister(rt, botId);
      assert forall k :: k != botId ==> Find(r.bots, k) == Find(rt.bots, k) by {
        forall k | k != botId ensures Find(r.bots, k) == Find(rt.bots, k) {
          FindRemove(rt.bots, botId, k);
        }
      }
      (Ok(200, "Bot undeployed successfully"), r)
  }

  /** Undeploying the same id twice: the second call finds nothing. */
  lemma UndeployTwice(rt: Runtime, botId: string)
    ensures Undeploy(Undeploy(rt, botId).1, botId).0.status == 404
  {
  }

  /** `GET /deployed`: one `{id, name}` per registry entry, in registry order. */
  function Deployed(rt: Runtime): (r: seq<Listing>)
    ensures |r| == |rt.bots|
    ensures forall i :: 0 <= i < |r| ==> r[i] == Listing(rt.bots[i].value.id, rt.bots[i].value.name)
  {
    seq(|rt.bots|, i requires 0 <= i < |rt.bots| => Listing(rt.bots[i].value.id, rt.bots[i].value.name))
  }

  /** After a successful deploy the listing ends with the new bot, and it
      grows only when the id was not deployed before. */
  lemma DeployedAfterDeploy(rt: Runtime, cfg: BotConfig)
    requires Consistent(rt)
    requires Truthy(cfg.id) && Truthy(cfg.name)
    ensures var l := Deployed(Deploy(rt, cfg, true).1);
            && |l| == |Deployed(rt)| + (if HasKey(rt.bots, cfg.id.value) then 0 else 1)
            && l[|l| - 1] == Listing(InstanceId(cfg), cfg.name)
  {
    var key := cfg.id.value;
    OneEntryPerId(rt);
    var cleared := if HasKey(rt.bots, key) then Remove(rt.bots, key) else rt.bots;
    if HasKey(rt.bots, key) {
      RemoveLength(rt.bots, key);
    }
    assert !HasKey(cleared, key);
    assert Deploy(rt, cfg, true).1.bots == cleared + [Entry(key, CreateInstance(cfg))];
  }

  /** Every instance carries its registry key as its `id`, as after deploys
      whose body has no `_id` other than its `id`. */
  predicate SelfKeyed(rt: Runtime) {
    forall i :: 0 <= i < |rt.bots| ==> rt.bots[i].value.id == Some(rt.bots[i].key)
  }

  /** Deploys whose instance id is the request's `id`, and undeploys, keep
      every instance under its own id. */
  lemma SelfKeyedPreserved(rt: Runtime, cfg: BotConfig, created: bool, botId: string)
    requires SelfKeyed(rt)
    ensures InstanceId(cfg) == cfg.id ==> SelfKeyed(Deploy(rt, cfg, created).1)
    ensures SelfKeyed(Undeploy(rt, botId).1)
  {
    if InstanceId(cfg) == cfg.id && Truthy(cfg.id) && Truthy(cfg.name) {
      var key := cfg.id.value;
      var cleared := if HasKey(rt.bots, key) then Remove(rt.bots, key) else rt.bots;
      assert SelfKeyed(Runtime(cleared, [])) by {
        forall i | 0 <= i < |cleared| ensures cleared[i].value.id == Some(cleared[i].key) {
          var j :| 0 <= j < |rt.bots| && rt.bots[j] == cleared[i];
        }
      }
      var r := Deploy(rt, cfg, created).1;
      if created {
        var inst := CreateInstance(cfg);
        assert r.bots == Put(cleared, key, inst);
        assert !HasKey(cleared, key);
        assert r.bots == cleared + [Entry(key, inst)];
      } else {
        assert r.bots == cleared;
      }
    }
    var u := Undeploy(rt, botId).1;
    forall i | 0 <= i < |u.bots| ensures u.bots[i].value.id == Some(u.bots[i].key) {
      var j :| 0 <= j < |rt.bots| && rt.bots[j] == u.bots[i];
    }
  }

  /** `GET /deployed` of a consistent, self-keyed registry lists every
      deployed id exactly once and no other. */
  lemma ListedIds(rt: Runtime)
    requires Consistent(rt) && SelfKeyed(rt)
    ensures forall k :: HasKey(rt.bots, k) <==>
              exists i :: 0 <= i < |Deployed(rt)| && Deployed(rt)[i].id == Some(k)
    ensures forall i, j :: 0 <= i < j < |Deployed(rt)| ==> Deployed(rt)[i].id != Deployed(rt)[j].id
  {
    OneEntryPerId(rt);
    var l := Deployed(rt);
    forall k | HasKey(rt.bots, k) ensures exists i :: 0 <= i < |l| && l[i].id == Some(k) {
      var i :| 0 <= i < |rt.bots| && rt.bots[i].key == k;
      assert l[i].id == Some(k);
    }
  }

  /** Undeploying removes exactly the id's row from the listing and keeps the
      order of the rest. */
  lemma DeployedAfterUndeploy(rt: Runtime, botId: string)
    requires Consistent(rt) && HasKey(rt.bots, botId)
    ensures var x := IndexOf(rt.bots, botId);
            var l := Deployed(Undeploy(rt, botId).1);
            && |l| == |Deployed(rt)| - 1
            && l == Deployed(rt)[..x] + Deployed(rt)[x + 1..]
  {
    OneEntryPerId(rt);
    RemoveAt(rt.bots, botId);
    var x := IndexOf(rt.bots, botId);
    assert Undeploy(rt, botId).1.bots == rt.bots[..x] + rt.bots[x + 1..];
    ListingOfCut(rt, Undeploy(rt, botId).1, x);
  }

  /** The listing of a registry with one entry cut out is the old listing
      with that row cut out. */
  lemma ListingOfCut(rt: Runtime, u: Runtime, x: int)
    requires 0 <= x < |rt.bots|
    requires u.bots == rt.bots[..x] + rt.bots[x + 1..]
    ensures Deployed(u) == Deployed(rt)[..x] + Deployed(rt)[x + 1..]
  {
    var l, d := Deployed(u), Deployed(rt);
    forall i | 0 <= i < |l| ensures l[i] == (d[..x] + d[x + 1..])[i] {
      if i < x { assert u.bots[i] == rt.bots[i]; } else { assert u.bots[i] == rt.bots[i + 1]; }
    }
  }

  function CommandIs(name: string): Command -> bool {
    (c: Command) => c.name == name
  }

  /** `handleCommand(command, args)`: the `response` of the first command
      named `command`, or `Command /<command> not found`; `args` is unused. */
  function HandleCommand(commands: seq<Command>, command: string): (r: Option<string>)
    ensures (forall i :: 0 <= i < |commands| ==> commands[i].name != command) ==>
              r == Some("Command /" + command + " not found")
    ensures forall i :: 0 <= i < |commands| && commands[i].name == command
                        && (forall j :: 0 <= j < i ==> commands[j].name != command) ==>
              r == commands[i].response
  {
    var i := Seqs.First(commands, CommandIs(command));
    if i < 0 then Some("Command /" + command + " not found") else commands[i].response
  }

  function FlowIs(flowId: string): Flow -> bool {
    (f: Flow) => f.id == flowId
  }

  /** `handleFlow(flowId, input)`: the message and options of the first step
      of the first flow with id `flowId`, whatever the input. `None` is the
      `TypeError` a flow without steps throws (`flow.steps[0]` is undefined). */
  function HandleFlow(flows: seq<Flow>, flowId: string): (r: Option<FlowView>)
    ensures (forall i :: 0 <= i < |flows| ==> flows[i].id != flowId) ==> r == Some(FlowNotFound)
    ensures forall i :: 0 <= i < |flows| && flows[i].id == flowId
                        && (forall j :: 0 <= j < i ==> flows[j].id != flowId) ==>
              (r.None? <==> |flows[i].steps| == 0)
    ensures forall i :: 0 <= i < |flows| && flows[i].id == flowId && |flows[i].steps| > 0
                        && (forall j :: 0 <= j < i ==> flows[j].id != flowId) ==>
              r == Some(FirstStep(flows[i].steps[0].message, flows[i].steps[0].options))
  {
    var i := Seqs.First(flows, FlowIs(flowId));
    if i < 0 then Some(FlowNotFound)
    else if |flows[i].steps| == 0 then None
    else Some(FirstStep(flows[i].steps[0].message, flows[i].steps[0].options))
  }

  /** `POST /simulate/:botId/command`. */
  function SimulateCommand(rt: Runtime, botId: string, command: string): (r: Reply<Option<string>>)
    ensures r.status == 404 <==> !HasKey(rt.bots, botId)
    ensures r.status == 500 <==> HasKey(rt.bots, botId) && Find(rt.bots, botId).value.commands.None?
    ensures r.Ok? ==> r.status == 200 && r.value == HandleCommand(Find(rt.bots, botId).value.commands.value, command)
  {
    match Find(rt.bots, botId)
    case None => Err(404, "Bot not deployed")
    case Some(bot) =>
      match bot.commands
      case None => Err(500, "Failed to simulate command")
      case Some(cs) => Ok(200, HandleCommand(cs, command))
  }

  /** `POST /simulate/:botId/flow`. `input` is kept only to match the
      route's body: `handleFlow` receives it and never reads it, so the body
      below never reads it either. */
  function SimulateFlow(rt: Runtime, botId: string, flowId: string, input: string): (r: Reply<FlowView>)
    ensures r.status == 404 <==> !HasKey(rt.bots, botId)
    ensures r.status == 500 <==>
              && HasKey(rt.bots, botId)
              && var bot := Find(rt.bots, botId).value;
                 bot.flows.None? || HandleFlow(bot.flows.value, flowId).None?
    ensures r.Ok? ==> r.status == 200 && Some(r.value) == HandleFlow(Find(rt.bots, botId).value.flows.value, flowId)
  {
    match Find(rt.bots, botId)
    case None => Err(404, "Bot not deployed")
    case Some(bot) =>
      match bot.flows
      case None => Err(500, "Failed to simulate flow")
      case Some(fs) =>
        match HandleFlow(fs, flowId)
        case None => Err(500, "Failed to simulate flow")
        case Some(view) => Ok(200, view)
  }

  /** The simulated reply does not depend on the input. This holds by
      construction, since `SimulateFlow` never reads `input`; it records that
      the handler discards the input rather than advancing the flow. */
  lemma SimulateFlowIgnoresInput(rt: Runtime, botId: string, flowId: string, a: string, b: string)
    ensures SimulateFlow(rt, botId, flowId, a) == SimulateFlow(rt, botId, flowId, b)
  {
  }

  // ------------------------------------------------------------- recovery

  /** A stored bot as the runtime receives it: `_id` is its key. The `id`
      field is left absent; it is immaterial, since `_id || id` picks the
      non-empty `_id`. */
  function DocConfig(doc: Entry<string, Bot>): BotConfig {
    BotConfig(Some(doc.key), None, Some(doc.value.name), Some(doc.value.token),
              Some(doc.value.commands), Some(doc.value.flows))
  }

  /** One step of recovery: `createBotInstance(doc)` succeeded, so the
      instance is started and set under `key`. As written (`stopLive` false)
      an instance already live under `key` is overwritten in the map without
      `stop()`; the corrected step stops it first, as `POST /deploy` does. */
  function Start(rt: Runtime, key: string, inst: Instance, stopLive: bool): (r: Runtime)
    ensures Find(r.bots, key) == Some(inst)
    ensures forall k :: k != key ==> Find(r.bots, k) == Find(rt.bots, k)
    ensures rt.log <= r.log
    ensures !stopLive ==> r == Register(rt, key, inst)
    ensures Consistent(rt) && (stopLive || !HasKey(rt.bots, key)) ==> Consistent(r)
  {
    var cleared := if stopLive && HasKey(rt.bots, key) then Unregister(rt, key) else rt;
    assert forall k :: k != key ==> Find(cleared.bots, k) == Find(rt.bots, k) by {
      forall k | k != key ensures Find(cleared.bots, k) == Find(rt.bots, k) {
        FindRemove(rt.bots, key, k);
      }
    }
    var r := Register(cleared, key, inst);
    assert forall k :: k != key ==> Find(r.bots, k) == Find(cleared.bots, k) by {
      forall k | k != key ensures Find(r.bots, k) == Find(cleared.bots, k) {
        FindPut(cleared.bots, key, inst, k);
      }
    }
    r
  }

  /** The loop of `deployActiveBots`: each document whose instance was created
      (`created`) is started under its `_id`; the others are skipped. */
  function RegisterAll(rt: Runtime, docs: seq<Entry<string, Bot>>, created: Entry<string, Bot> -> bool,
                       stopLive: bool): (r: Runtime)
    decreases |docs|
    ensures rt.log <= r.log
  {
    if |docs| == 0 then rt
    else
      var doc := docs[0];
      var rt' := if created(doc) then Start(rt, doc.key, CreateInstance(DocConfig(doc)), stopLive) else rt;
      RegisterAll(rt', docs[1..], created, stopLive)
  }

  /** No document is created under `k`. */
  ghost predicate NoneCreated(docs: seq<Entry<string, Bot>>, created: Entry<string, Bot> -> bool, k: string) {
    forall i :: 0 <= i < |docs| && created(docs[i]) ==> docs[i].key != k
  }

  /** Recovery touches only the keys of created documents. */
  lemma {:induction false} RegisterAllFrame(rt: Runtime, docs: seq<Entry<string, Bot>>,
                                            created: Entry<string, Bot> -> bool, stopLive: bool, k: string)
    requires NoneCreated(docs, created, k)
    ensures Find(RegisterAll(rt, docs, created, stopLive).bots, k) == Find(rt.bots, k)
    decreases |docs|
  {
    if |docs| > 0 {
      var doc := docs[0];
      var rt' := if created(doc) then Start(rt, doc.key, CreateInstance(DocConfig(doc)), stopLive) else rt;
      assert forall i :: 1 <= i < |docs| ==> docs[i] == docs[1..][i - 1];
      RegisterAllFrame(rt', docs[1..], created, stopLive, k);
    }
  }

  /** A created document that no later created document shadows ends up
      registered under its `_id`. */
  lemma {:induction false} RegisterAllLastWins(rt: Runtime, docs: seq<Entry<string, Bot>>,
                                               created: Entry<string, Bot> -> bool, stopLive: bool, i: int)
    requires 0 <= i < |docs| && created(docs[i])
    requires NoneCreated(docs[i + 1..], created, docs[i].key)
    ensures Find(RegisterAll(rt, docs, created, stopLive).bots, docs[i].key)
            == Some(CreateInstance(DocConfig(docs[i])))
    decreases |docs|
  {
    var doc := docs[0];
    var rt' := if created(doc) then Start(rt, doc.key, CreateInstance(DocConfig(doc)), stopLive) else rt;
    if i == 0 {
      RegisterAllFrame(rt', docs[1..], created, stopLive, doc.key);
    } else {
      assert docs[1..][i - 1] == docs[i];
      assert docs[1..][i - 1 + 1..] == docs[i + 1..];
      RegisterAllLastWins(rt', docs[1..], created, stopLive, i - 1);
    }
  }

  /** None of the created documents' ids is live in `rt`, and they are distinct. */
  predicate FreshIds(rt: Runtime, docs: seq<Entry<string, Bot>>, created: Entry<string, Bot> -> bool) {
    && UniqueKeys(docs)
    && forall i :: 0 <= i < |docs| && created(docs[i]) ==> !HasKey(rt.bots, docs[i].key)
  }

  /** Recovery keeps sessions and registry in step: always with the corrected
      step, and as written only when it never meets a live id. */
  lemma {:induction false} RegisterAllConsistent(rt: Runtime, docs: seq<Entry<string, Bot>>,
                                                 created: Entry<string, Bot> -> bool, stopLive: bool)
    requires Consistent(rt)
    requires stopLive || FreshIds(rt, docs, created)
    ensures Consistent(RegisterAll(rt, docs, created, stopLive))
    decreases |docs|
  {
    if |docs| > 0 {
      var doc := docs[0];
      var rt' := if created(doc) then Start(rt, doc.key, CreateInstance(DocConfig(doc)), stopLive) else rt;
      var rest := docs[1..];
      assert forall i :: 0 <= i < |rest| ==> rest[i] == docs[i + 1];
      if !stopLive {
        forall i | 0 <= i < |rest| && created(rest[i]) ensures !HasKey(rt'.bots, rest[i].key) {
          assert docs[0].key != docs[i + 1].key;
        }
      }
      RegisterAllConsistent(rt', rest, created, stopLive);
    }
  }

  /** The last created document with the same key as `docs[i]`. */
  lemma LastCreated(docs: seq<Entry<string, Bot>>, created: Entry<string, Bot> -> bool, i: int) returns (j: int)
    requires 0 <= i < |docs| && created(docs[i])
    ensures i <= j < |docs| && created(docs[j]) && docs[j].key == docs[i].key
    ensures forall m :: j < m < |docs| && created(docs[m]) ==> docs[m].key != docs[j].key
    decreases |docs| - i
  {
    if exists m :: i < m < |docs| && created(docs[m]) && docs[m].key == docs[i].key {
      var m :| i < m < |docs| && created(docs[m]) && docs[m].key == docs[i].key;
      j := LastCreated(docs, created, m);
    } else {
      j := i;
    }
  }

  /** What either form of recovery leaves in the registry: every created
      document's id is registered, every registered id was live before or
      belongs to a created document, and ids of no created document keep
      their entry. */
  lemma RecoveryOutcome(rt: Runtime, docs: seq<Entry<string, Bot>>, created: Entry<string, Bot> -> bool,
                        stopLive: bool)
    ensures var r := RegisterAll(rt, docs, created, stopLive);
            && (forall i :: 0 <= i < |docs| && created(docs[i]) ==> HasKey(r.bots, docs[i].key))
            && (forall k :: HasKey(r.bots, k) ==>
                  HasKey(rt.bots, k) || exists i :: 0 <= i < |docs| && created(docs[i]) && docs[i].key == k)
            && (forall k :: NoneCreated(docs, created, k) ==> Find(r.bots, k) == Find(rt.bots, k))
  {
    var r := RegisterAll(rt, docs, created, stopLive);
    forall k | NoneCreated(docs, created, k) ensures Find(r.bots, k) == Find(rt.bots, k) {
      RegisterAllFrame(rt, docs, created, stopLive, k);
    }
    forall i | 0 <= i < |docs| && created(docs[i]) ensures HasKey(r.bots, docs[i].key) {
      var j := LastCreated(docs, created, i);
      RegisterAllLastWins(rt, docs, created, stopLive, j);
    }
    forall k | HasKey(r.bots, k)
      ensures HasKey(rt.bots, k) || exists i :: 0 <= i < |docs| && created(docs[i]) && docs[i].key == k
    {
      if NoneCreated(docs, created, k) {
        assert Find(r.bots, k) == Find(rt.bots, k);
      }
    }
  }

  /** `deployActiveBots` as written. Startup runs it without awaiting, after
      the server is listening, so a `POST /deploy` served while it fetches the
      active bots may already have registered one of their ids; the registry
      then agrees with the sessions only when no created id is live. */
  function DeployActiveBots(rt: Runtime, docs: seq<Entry<string, Bot>>, created: Entry<string, Bot> -> bool)
    : (r: Runtime)
    ensures forall i :: 0 <= i < |docs| && created(docs[i]) ==> HasKey(r.bots, docs[i].key)
    ensures forall k :: HasKey(r.bots, k) ==>
              HasKey(rt.bots, k) || exists i :: 0 <= i < |docs| && created(docs[i]) && docs[i].key == k
    ensures forall k :: (forall i :: 0 <= i < |docs| && created(docs[i]) ==> docs[i].key != k) ==>
              Find(r.bots, k) == Find(rt.bots, k)
    ensures Consistent(rt) && FreshIds(rt, docs, created) ==> Consistent(r)
  {
    RecoveryOutcome(rt, docs, created, false);
    assert Consistent(rt) && FreshIds(rt, docs, created) ==> Consistent(RegisterAll(rt, docs, created, false)) by {
      if Consistent(rt) && FreshIds(rt, docs, created) { RegisterAllConsistent(rt, docs, created, false); }
    }
    RegisterAll(rt, docs, created, false)
  }

  /** A bot deployed during the fetch is started a second time by recovery:
      its first session is never stopped, and the registry no longer agrees
      with the sessions. */
  lemma RecoveryDoubleStart()
    ensures var doc := Entry("b1", Bot("Demo", "token", "u1", [], [], Active));
            var rt := Register(Runtime([], []), "b1", CreateInstance(DocConfig(doc)));
            && Consistent(rt)
            && !Consistent(DeployActiveBots(rt, [doc], d => true))
  {
    var doc := Entry("b1", Bot("Demo", "token", "u1", [], [], Active));
    var inst := CreateInstance(DocConfig(doc));
    var rt := Register(Runtime([], []), "b1", inst);
    var r := DeployActiveBots(rt, [doc], d => true);
    var docs := [doc];
    assert docs[0] == doc && docs[1..] == [];
    assert r == RegisterAll(rt, docs, d => true, false);
    assert r == RegisterAll(Start(rt, "b1", inst, false), [], d => true, false);
    assert r == Start(rt, "b1", inst, false);
    assert r.log[..|r.log| - 1] == rt.log;
    assert HasKey(Replay(rt.log), "b1");
  }

  /** Recovery with the corrected step: a created document's id that is
      already live has its instance stopped before the new one starts, so the
      registry agrees with the sessions from any consistent state. */
  function RecoverActiveBots(rt: Runtime, docs: seq<Entry<string, Bot>>, created: Entry<string, Bot> -> bool)
    : (r: Runtime)
    ensures forall i :: 0 <= i < |docs| && created(docs[i]) ==> HasKey(r.bots, docs[i].key)
    ensures forall k :: HasKey(r.bots, k) ==>
              HasKey(rt.bots, k) || exists i :: 0 <= i < |docs| && created(docs[i]) && docs[i].key == k
    ensures forall k :: (forall i :: 0 <= i < |docs| && created(docs[i]) ==> docs[i].key != k) ==>
              Find(r.bots, k) == Find(rt.bots, k)
    ensures forall k :: HasKey(rt.bots, k) ==> HasKey(r.bots, k)
    ensures Consistent(rt) ==> Consistent(r)
  {
    RecoveryOutcome(rt, docs, created, true);
    var r := RegisterAll(rt, docs, created, true);
    assert forall k :: HasKey(rt.bots, k) ==> HasKey(r.bots, k) by {
      forall k | HasKey(rt.bots, k) ensures HasKey(r.bots, k) {
        if !NoneCreated(docs, created, k) {
          var i :| 0 <= i < |docs| && created(docs[i]) && docs[i].key == k;
        }
      }
    }
    assert Consistent(rt) ==> Consistent(r) by {
      if Consistent(rt) { RegisterAllConsistent(rt, docs, created, true); }
    }
    r
  }
}
