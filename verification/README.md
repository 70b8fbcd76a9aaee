# Bot-Forge core in Dafny

Bot-Forge is a set of Express services for authoring and running Telegram
bots. This project models the parts of it that decide things:

- the **bot runtime**: the `activeBots` registry of live bot instances, its
  deploy / undeploy / listing / simulation handlers, and the startup recovery
  that redeploys stored bots;
- the **bot builder**: creating a bot with its default commands, appending a
  command or a flow, and marking a bot active after it is deployed;
- the **persistence service** and its schemas: the user routes with their
  validation and filters, the bot routes with the owner back-link, the bot
  listing filter, and the runtime-data read and upsert keyed by
  `(botId, userId)`;
- the **user service**: the decisions of register, login and profile.

Every HTTP handler is a pure function from a state and a request to a reply
and a new state. The reply is `Reply<T>`, either `Ok(status, value)` or
`Err(status, message)`.

The persistence state is a `Store`. It has a `connected` flag and three
collections, each an insertion-ordered table of `(_id, document)` entries
(`Assoc`). The validity predicate `DbService.Valid` collects the guarantees
of the schemas and their unique indexes:

- required paths;
- unique `username` and `email`;
- one runtime record per `(botId, userId)`.

Every modelled route that writes the store is proved to preserve `Valid`,
including the as-written variants kept for the findings below.

The runtime registry is the same kind of table, standing in for a JavaScript
`Map`. The Telegram sessions an instance's `start()` opens and `stop()`
closes are kept as a log of `Started` / `Stopped` events next to the
registry. `BotRuntime.Consistent` says two things:

- the registry is what replaying the log yields;
- no key is started twice without a stop in between.

Every runtime handler is proved to preserve it. So at most one entry exists
per id, and a replaced instance was stopped before its successor started.
Startup recovery as written preserves it only when none of the ids it starts
is already live; the corrected recovery preserves it from any state.

Several effects come from outside and are parameters of the model:

- whether `createBotInstance` succeeds (`created`);
- the registry at the moment recovery's listing arrives (`rt`), since
  recovery runs unawaited after the server starts listening;
- `Date.now()` (`now`);
- the `_id` a new document receives (`newId`);
- `bcrypt.hash` (`hash`), `bcrypt.compare` (`verify`) and `jwt.sign`
  (`sign`).

Calls between services are direct calls of the modelled routes. The
builder's deploy calls `BotRuntime.Deploy` with the document it read, and
the runtime's recovery calls the bot listing.

Modules, one per file: `Wrappers` and `Seqs` (wrappers.dfy), `Assoc`,
`Models`, `DbService`, `BotRuntime`, `Decimal`, `BotBuilder`, `UserService`
and `Startup`.

## Model

| member | source | states |
|---|---|---|
| Models.ParseStatus | services/db-service/models/Bot.js:57-61 | an absent status defaults to `draft`; each of `active`, `inactive`, `draft` is accepted as itself; an accepted string is the name of the status it yields |
| DbService.ListUsers | services/db-service/index.js:98-125 | 500 exactly when the database is not connected; otherwise the result holds only stored users, all with email `e` when `?email=e` is given, and every stored user that matches |
| DbService.GetUser | services/db-service/index.js:127-152 | 500 when not connected, 404 exactly when no user has the id, otherwise 200 with the stored user under that id |
| DbService.AppendUser | services/db-service/models/User.js:3-22 | adding a user whose id, username and email are all unused keeps the collection valid: required fields present, ids, usernames and emails unique |
| DbService.CreateUser | services/db-service/index.js:154-189 | 500 when not connected; 400 exactly when username, email or password is missing; 409 exactly when the id, username or email is taken; 201 appends exactly the new user; every error leaves the store unchanged; validity is preserved |
| DbService.UpdateUser | services/db-service/index.js:191-228 | 500 when not connected; 400 exactly when the body sets a required path empty, even for an absent user; 404 exactly when a valid body names no user; 409 exactly when another user has the resulting username or email; on 200 each field is the body's or else the stored one; no other user and no bot changes; validity is preserved |
| DbService.ReplaceUser | services/db-service/models/User.js:3-22 | overwriting a user with a valid one whose username and email no other user has keeps the collection valid |
| DbService.DeleteUser | services/db-service/index.js:230-256 | 500 when not connected; 404 exactly when the user is absent; otherwise 204 and the user is gone; no other user, no bot and no runtime record changes, so owned bots keep the deleted `ownerId`; validity is preserved |
| DbService.RemoveUser | services/db-service/models/User.js:3-22 | removing a user keeps ids, usernames and emails unique |
| DbService.DeletedOwnerDangles | services/db-service/index.js:240 | deleting the owner of a stored bot answers 204 and leaves the bot naming a user that no longer exists |
| DbService.EditBots | services/db-service/index.js:296-301 | updating one user's `bots` changes no other user, does nothing when the user is absent, applies the edit to that user's list, and keeps the collection valid |
| DbService.ListBots | services/db-service/index.js:259-275 | only stored bots, all owned by `o` when `?ownerId=o` is given, and every stored bot that matches; any other query field is ignored |
| DbService.GetBot | services/db-service/index.js:277-288 | 404 exactly when no bot has the id, otherwise 200 with that bot |
| DbService.NewBot | services/db-service/models/Bot.js:41-61 | a bot body is accepted exactly when name, token and ownerId are present and the status is absent or one of the three enum values; the accepted bot carries the given fields, an absent status becoming `draft` |
| DbService.CreateBot | services/db-service/index.js:290-308 | 201 exactly when the body validates and the id is fresh, otherwise 400 with no change; the new bot is appended, its id is pushed onto its owner's `bots`, and no other user changes |
| DbService.UpdateBot | services/db-service/index.js:310-327 | 400 exactly when the body sets `name`, `token` or `ownerId` empty, a `status` outside the enum, or an invalid command or flow; 404 exactly when a valid body names no bot; on 200 each field is the body's or else the stored one; no other bot, no user and no runtime record changes, so an `ownerId` change leaves the owners' `bots` lists as they were; validity is preserved |
| DbService.OwnerMoveLeavesBackLinkStale | services/db-service/index.js:312-316 | moving a bot to another owner answers 200 yet the old owner still lists it and the new owner does not |
| DbService.Without | services/db-service/index.js:338-343 | `$pull`: the id no longer occurs, every other element stays, nothing new appears |
| DbService.WithoutKeepsOrder | services/db-service/index.js:338-343 | `$pull` keeps the remaining ids in their order: it distributes over concatenation and keeps a single id exactly when it is not the pulled one |
| DbService.DeleteBot | services/db-service/index.js:329-351 | 404 with no change when the bot is absent; otherwise 204, the bot is gone, other bots are unchanged, the id is pulled from the owner's `bots` when the bot has an owner, and no other user changes |
| DbService.GetRuntimeData | services/db-service/index.js:354-368 | 404 exactly when no record exists for the pair, otherwise 200 with the stored record |
| DbService.Relocate | services/db-service/index.js:375-387 | the record written under its target pair is found there, the URL's pair is emptied when the two differ, and every other pair keeps its record |
| DbService.PutValidRuntime | services/db-service/models/BotRuntimeData.js:27 | writing a record under its own non-empty pair keeps one record per pair |
| DbService.RemoveValidRuntime | services/db-service/models/BotRuntimeData.js:27 | removing a pair's record keeps one record per pair |
| DbService.MergeKeyed | services/db-service/index.js:375-380 | on a valid store the merged record carries the body's `botId` and `userId`, or else the URL's |
| DbService.Upsert | services/db-service/index.js:375-394 | the upsert throws exactly when the body sets `botId` or `userId` empty or moves the record onto a pair that has one; otherwise the record holds the body's fields (the stored or default ones elsewhere) and `lastInteraction = now` and sits under its target pair, the URL's pair is emptied when the body re-keys it, other pairs are untouched, and one record per pair is kept |
| DbService.UpsertRuntimeData | services/db-service/index.js:370-395 | the upsert with the intended status: 400 exactly when it throws, 201 exactly when the URL's pair had no record, 200 exactly when it had one, with the store change of `Upsert` |
| DbService.UpsertRuntimeDataAsWritten | services/db-service/index.js:370-395 | the route as written answers 400 exactly when the upsert throws and 200 in every other case, with the same store change as the intended route |
| DbService.InsertReportedAsUpdate | services/db-service/index.js:389 | an upsert into an empty collection creates the record yet the route as written answers 200, where the intended status is 201 |
| DbService.BodyKeyMovesRecord | services/db-service/index.js:375-380 | a body naming another user moves the record: the upsert answers 200, and the URL's pair then answers 404 |
| BotRuntime.ReplayUnique | services/bot-runtime/index.js:35 | a registry rebuilt from any start/stop log has at most one entry per key |
| BotRuntime.OneEntryPerId | services/bot-runtime/index.js:35 | a consistent registry holds at most one instance per bot id |
| BotRuntime.Unregister | services/bot-runtime/index.js:149-151 | stop-then-delete removes the key, logs the stop of the instance that was there, and keeps the registry consistent |
| BotRuntime.Register | services/bot-runtime/index.js:131-132 | start-then-set puts the instance under the key, logs its start, and keeps a consistent registry consistent when the key was free |
| BotRuntime.Deploy | services/bot-runtime/index.js:111-139 | 400 exactly when `id` or `name` is missing, with nothing changed; otherwise an existing instance is stopped before anything starts; on creation failure 500 and no entry for the id; on success 200 and the new instance is the id's only entry; other keys are untouched; consistency is preserved |
| BotRuntime.Undeploy | services/bot-runtime/index.js:141-158 | 404 with nothing changed when the id is absent; otherwise 200, that instance is stopped and its key removed; other keys are untouched; consistency is preserved |
| BotRuntime.UndeployTwice | services/bot-runtime/index.js:145-151 | undeploying an id a second time answers 404 |
| BotRuntime.SelfKeyedPreserved | services/bot-runtime/index.js:111-153 | a deploy whose instance id (`_id \|\| id`) is the request's `id`, and any undeploy, keep every instance under its own id |
| BotRuntime.ListedIds | services/bot-runtime/index.js:160-170 | for a consistent registry whose instances carry their keys, `GET /deployed` lists every deployed id exactly once and no other id |
| BotRuntime.DeployedAfterUndeploy | services/bot-runtime/index.js:141-170 | after an undeploy the listing loses exactly the id's row, keeping the other rows in order |
| BotRuntime.DeployedAfterDeploy | services/bot-runtime/index.js:119-132 | after a successful deploy the listing ends with the new bot and has grown by one exactly when the id was not deployed before |
| BotRuntime.HandleCommand | services/bot-runtime/index.js:79-85 | the response of the first command with the given name, or `Command /<name> not found` when there is none |
| BotRuntime.HandleFlow | services/bot-runtime/index.js:88-101 | `Flow not found` when no flow has the id; otherwise the message and options of the first step of the first matching flow; undefined when that flow has no steps |
| BotRuntime.SimulateCommand | services/bot-runtime/index.js:178-196 | 404 exactly when the bot is not deployed, 500 when its instance has no command list, otherwise 200 with the command lookup |
| BotRuntime.SimulateFlow | services/bot-runtime/index.js:199-216 | 404 exactly when the bot is not deployed, 500 when the flow lookup fails, otherwise 200 with the first step |
| BotRuntime.SimulateFlowIgnoresInput | services/bot-runtime/index.js:199-216 | the flow simulation gives the same reply whatever the `input`; this holds by construction, as `handleFlow` never reads it |
| BotRuntime.Start | services/bot-runtime/index.js:229-233 | one recovery step puts the new instance under the `_id` and leaves other keys alone; as written it is a plain start-and-set, which keeps the registry consistent only when the key was free; the corrected step stops a live instance first and keeps it consistent always |
| BotRuntime.RegisterAll | services/bot-runtime/index.js:228-235 | the recovery loop only appends to the event log |
| BotRuntime.RegisterAllFrame | services/bot-runtime/index.js:228-235 | a key under which no document is created keeps its prior entry |
| BotRuntime.RegisterAllLastWins | services/bot-runtime/index.js:228-235 | the entry under a key is the instance of the last created document with that `_id` |
| BotRuntime.RegisterAllConsistent | services/bot-runtime/index.js:228-235 | recovery keeps the registry consistent: with the corrected step always, as written when the created `_id`s are distinct and none is live |
| BotRuntime.LastCreated | services/bot-runtime/index.js:228-235 | every created document has a last created document with the same `_id` |
| BotRuntime.RecoveryOutcome | services/bot-runtime/index.js:228-235 | after recovery every created document's `_id` is registered, every registered key was live before or is a created `_id`, and other keys keep their entry |
| BotRuntime.DeployActiveBots | services/bot-runtime/index.js:218-242 | recovery as written from the registry it finds: created `_id`s are registered, nothing else is added, keys of no created document keep their entry, and the registry stays consistent when no created `_id` is live |
| BotRuntime.RecoveryDoubleStart | services/bot-runtime/index.js:232 | a bot deployed before the listing arrives is started again without being stopped, and the registry no longer agrees with the sessions |
| BotRuntime.RecoverActiveBots | services/bot-runtime/index.js:218-242 | corrected recovery: the same registered keys, every live key stays live, and the registry stays consistent from any consistent state |
| BotBuilder.CreateBot | services/bot-builder/index.js:43-88 | 400 exactly when name, ownerId or token is missing; 500 exactly when the save is refused because the new id is taken; otherwise 201, and the saved bot has the given name, owner and token, exactly the `start` and `help` commands with their welcome and help responses, no flows, and status `inactive`; validity is preserved |
| BotBuilder.AddCommand | services/bot-builder/index.js:156-192 | 400 exactly when name, description or response is missing; 404 when the bot is absent; 409 exactly when the name is already used; otherwise 201 and the list becomes the old list plus the new command, names stay unique, and nothing else changes |
| BotBuilder.FlowIdInjective | services/bot-builder/index.js:208 | flows created at different milliseconds receive different `flow-<ms>` ids |
| BotBuilder.AddFlow | services/bot-builder/index.js:194-230 | 400 exactly when name, trigger or a non-empty steps array is missing; 404 when the bot is absent; otherwise the flow `flow-<now>` is appended after the unchanged earlier flows, and it is saved exactly when its steps validate |
| BotBuilder.MarkDeployed | services/bot-builder/index.js:241-253 | a runtime refusal answers 500 with nothing changed; otherwise the bot becomes `active` exactly when it is stored, and the reply is the updated bot |
| BotBuilder.DeployBotAsWritten | services/bot-builder/index.js:232-259 | the stored bot is forwarded without an `id`, so the runtime refuses it: 404 exactly when the bot is absent, 500 whenever it is present, and neither the store nor the registry changes |
| BotBuilder.DeployBot | services/bot-builder/index.js:232-259 | with the bot sent under its id: 404 exactly when absent; for a valid stored bot, 200 exactly when its instance is created, and then the bot is `active` in the store and its instance is the id's registry entry; a failed creation leaves the store as it was and no instance under the id; other bots and registry keys are untouched; validity and registry consistency are preserved |
| UserService.WithoutPassword | services/user-service/index.js:87 | the reply keeps every field of the user except `password` |
| UserService.RegisterAsWritten | services/user-service/index.js:43-96 | 400 exactly when a field is missing; 409 exactly when some stored user already has the email, whatever the username; on success 201, the user is stored with the hashed password and no bots, and the reply has no `password`; every error leaves the store unchanged; only users change, and validity is preserved |
| UserService.TakenUsernameMisreported | services/user-service/index.js:58-63 | whenever the username is taken and the email is free, the route as written answers 500 where the intended check answers 409 |
| UserService.TakenUsernameAnswers500 | services/user-service/index.js:58-63 | registering `alice` with a new email, next to an existing `alice`, answers 500 as written and 409 as intended |
| UserService.Register | services/user-service/index.js:43-96 | 400 exactly when a field is missing; 409 exactly when any stored user has the username or the email; on success 201, the user is stored with the hashed password and no bots, and the reply is that user without `password`; only users change, and validity is preserved |
| UserService.UserBots | services/user-service/index.js:170-195 | 500 exactly when the store is unreachable, 404 exactly when the user is absent, otherwise 200 with exactly the stored bots owned by the user |
| UserService.UnknownUserIsNotEmptyList | services/user-service/index.js:177-183 | the user lookup tells an unknown user (404) from a user without bots (200 with an empty list), which the listing alone does not |
| UserService.Login | services/user-service/index.js:99-141 | 400 exactly when email or password is missing; 500 when the users cannot be read; 401 `Invalid credentials` exactly when no user has the email or the password does not verify; 200 with the signed token and `_id` of the first user with the email |
| UserService.Profile | services/user-service/index.js:144-167 | 500 when not connected, 404 exactly when the user is absent, otherwise 200 with the stored user without `password` |
| Startup.StartupAsWritten | services/bot-runtime/index.js:223 | recovery as written starts every stored bot whose instance can be created, whatever its status |
| Startup.DraftBotStarted | services/bot-runtime/index.js:223 | a store holding one `draft` bot gets that bot started at startup |
| Startup.ListBotsByQuery | services/db-service/index.js:259-275 | the bot listing honouring `status` as well as `ownerId`: only matching stored bots, every matching one, and unique ids |
| Startup.ActiveListing | services/bot-runtime/index.js:223 | the corrected active listing holds exactly the stored bots whose status is `active` |
| Startup.RecoveredKeys | services/bot-runtime/index.js:218-242 | after corrected recovery the registry holds the live keys and the active created stored bots, every such bot is registered, and every other key keeps its entry |
| Startup.Startup | services/bot-runtime/index.js:218-242 | corrected recovery adds to the registry it finds exactly the `active` stored bots whose instance can be created, each under its `_id`; every live key stays, every key of no such bot keeps its instance, and the registry stays consistent |

## Left out

- The root launcher, the React client and the analytics model and routes are
  left out. They start processes, render pages, or store records without a
  decision.
- The API gateway is left out. It forwards user-service and runtime requests
  with their bodies. For every bot-builder request, though, it rebuilds the
  body as `{ownerId, name}` (services/api-gateway/index.js:72-78). So through
  the gateway `POST /` loses `token`, adding a command loses `description`
  and `response`, and adding a flow loses `trigger` and `steps`; each then
  answers 400. The builder routes are modelled with the bodies they receive
  directly.
- Express wiring, logging, health endpoints and `app.listen` are left out.
- The Mongoose connect, reconnect and timer logic is left out. The store's
  `connected` flag stands for the connection state.
- The bot routes of the persistence service do not check the connection, and
  Mongoose buffers their queries. The model gives them no disconnected case.
- The builder's `GET /user/:userId`, `GET /:botId` and `PUT /:botId` are left
  out. Each sends one request to a modelled persistence route and relays
  its reply. `GET /user/:userId` wraps the listing as `{bots}` and answers
  any failure with 500. The other two pass 404 on and answer every other
  failure, a validation 400 included, with 500.
- Telegraf `launch`, `stop` and command registration are transport I/O. Only
  the start and stop events are recorded.
- Timestamps (`createdAt`, `updatedAt`) and ObjectId cast errors are left
  out. Ids are arbitrary strings.
- URL encoding of query strings is left out.
- Concurrency: the builder reads a bot, awaits, then writes it back. The model
  is sequential and claims no atomicity across those awaits.
- `conversationState` holds mixed values in the schema. It is modelled as a
  map from strings to strings.
- Request bodies are JSON objects whose fields the model takes as present or
  absent strings. Type coercion of non-string values is not modelled.
- A step in a flow request that lacks `id` or `type` is modelled with that
  field empty, which the step validation rejects.
- A multi-step conversation engine is not modelled, because the source has
  none. `handleFlow` only returns the first step of a flow.
- BotRuntime.HandleFlow: a matched flow with no steps throws a TypeError in
  the source. The model gives `None` there, and `SimulateFlow` answers 500.
- BotRuntime.RegisterAll: its own contract states only that the log grows.
  Its effect is stated by `RegisterAllFrame`, `RegisterAllLastWins` and
  `RegisterAllConsistent`.
- BotRuntime.Deploy: the deploy key is the request's `id`, while the listing
  reports `_id || id` and recovery keys by `_id`. The model keeps the three
  as written; the corrected builder deploy sends the document's `_id` as its
  `id`, so the keys agree for bots deployed through the builder.
- DbService.Upsert: schema defaults and type casts of other body paths are
  not modelled; the body carries only the record's own paths.
- DbService.UpdateUser: a body `_id` and the password-hash question are not
  modelled. The route stores the body's `password` as given.
- UserService.Login: bcrypt and JWT are uninterpreted parameters. The token's
  one-hour expiry and the secret are not modelled.

## Findings

| source | as written | input that shows it | evidently intended | confidence | as-written member | corrected member |
|---|---|---|---|---|---|---|
| services/bot-runtime/index.js:223 | recovery asks `GET /bots?status=active`, but the route filters only by `ownerId`, so every stored bot is redeployed | one stored bot with status `draft` and a token | only bots whose status is `active` are redeployed | high, not executed | Startup.DraftBotStarted | Startup.Startup |
| services/user-service/index.js:58-63 | the duplicate pre-check fetches only users with the new email, so its username comparison never fires; the store then refuses the duplicate username with 409, and the outer handler turns that into 500 | existing user `alice` / `alice@example.com`; register `alice` / `other@example.com` | 409 `User already exists` when the username or the email is taken | high, not executed | UserService.TakenUsernameAnswers500 | UserService.Register |
| services/bot-builder/index.js:237-241 | the builder forwards the document from `GET /bots/:botId`, which has `_id` but no `id`, and the runtime's `/deploy` refuses any body without `id` with 400, which the builder answers as 500 | any stored bot, deployed through the builder | the runtime receives the bot under its id, starts it, and the bot is marked `active` | medium (the document's JSON has no `id` virtual), not executed | BotBuilder.DeployBotAsWritten | BotBuilder.DeployBot |
| services/bot-runtime/index.js:232 | recovery runs unawaited after `listen`, and sets each recovered instance into the registry without stopping one already live under the same id | `POST /deploy` of bot `b1` served before the active-bot listing, which contains `b1`, arrives | a live instance is stopped before its replacement starts, as `/deploy` does | low (needs that interleaving), not executed | BotRuntime.RecoveryDoubleStart | BotRuntime.RecoverActiveBots |
| services/db-service/index.js:389 | the status is chosen by `isNew` of the document `findOneAndUpdate` returns, which is false on a returned document, so a created record is reported with 200 | an upsert for a pair with no record | 201 when the record was created, 200 when it was updated | medium, not executed | DbService.InsertReportedAsUpdate | DbService.UpsertRuntimeData |
