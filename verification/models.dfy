/** The Mongoose schemas of the persistence service: bots with their
    commands and flows, per-(bot, user) conversation records, and user
    accounts. A `required` String path rejects `undefined` and `""`, so every
    required field is a `string` that a valid document keeps non-empty; an
    optional path is an `Option`. */
module Models {
  import opened Wrappers

  /** A slash command with its static reply; only `name` is required. */
  datatype Command = Command(name: string, description: Option<string>, response: Option<string>)

  /** A choice offered by a step: its label and the id of the step it leads to. */
  datatype StepOption = StepOption(text: Option<string>, next: Option<string>)

  /** A flow step; `kind` is the schema's `type` path. */
  datatype Step = Step(id: string, kind: string, message: Option<string>, options: seq<StepOption>)

  datatype Flow = Flow(id: string, name: Option<string>, trigger: Option<string>, steps: seq<Step>)

  /** The `status` enum of a bot. */
  datatype BotStatus = Active | Inactive | Draft

  datatype Bot = Bot(
    name: string,
    token: string,
    ownerId: string,
    commands: seq<Command>,
    flows: seq<Flow>,
    status: BotStatus)

  /** One user's conversation record with one bot; `conversationState` is a
      string-keyed map whose mixed values are kept opaque as strings, and
      `lastInteraction` is a timestamp in milliseconds. */
  datatype RuntimeData = RuntimeData(
    botId: string,
    userId: string,
    currentFlow: Option<string>,
    currentStep: Option<string>,
    conversationState: map<string, string>,
    lastInteraction: int)

  /** An account; `bots` holds the ids of the bots the user owns. */
  datatype User = User(username: string, email: string, password: string, bots: seq<string>)

  predicate ValidCommand(c: Command) {
    c.name != ""
  }

  predicate ValidStep(s: Step) {
    s.id != "" && s.kind != ""
  }

  predicate ValidSteps(steps: seq<Step>) {
    forall i :: 0 <= i < |steps| ==> ValidStep(steps[i])
  }

  predicate ValidFlow(f: Flow) {
    f.id != "" && ValidSteps(f.steps)
  }

  predicate ValidCommands(cs: seq<Command>) {
    forall i :: 0 <= i < |cs| ==> ValidCommand(cs[i])
  }

  predicate ValidFlows(fs: seq<Flow>) {
    forall i :: 0 <= i < |fs| ==> ValidFlow(fs[i])
  }

  predicate ValidBot(b: Bot) {
    && b.name != "" && b.token != "" && b.ownerId != ""
    && ValidCommands(b.commands)
    && ValidFlows(b.flows)
  }

  predicate ValidRuntimeData(d: RuntimeData) {
    d.botId != "" && d.userId != ""
  }

  predicate ValidUser(u: User) {
    u.username != "" && u.email != "" && u.password != ""
  }

  /** The string a status is stored as. */
  function StatusName(s: BotStatus): string {
    match s
    case Active => "active"
    case Inactive => "inactive"
    case Draft => "draft"
  }

  /** Casting a `status` path: an absent value takes the default `draft`, one
      of the three enum strings is accepted, anything else fails validation. */
  function ParseStatus(s: Option<string>): (r: Option<BotStatus>)
    ensures s.None? ==> r == Some(Draft)
    ensures s.Some? && r.Some? ==> StatusName(r.value) == s.value
    ensures forall st :: s == Some(StatusName(st)) ==> r == Some(st)
  {
    match s
    case None => Some(Draft)
    case Some(v) =>
      if v == "active" then Some(Active)
      else if v == "inactive" then Some(Inactive)
      else if v == "draft" then Some(Draft)
      else None
  }
}
