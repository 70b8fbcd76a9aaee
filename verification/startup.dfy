/** Startup recovery of the bot runtime: when the service starts it asks the
    persistence service for the active bots and starts each of them again. */
module Startup {
  import opened Wrappers
  import opened Assoc
  import opened Models
  import opened DbService
  import opened BotRuntime
  import Seqs

  /** The query recovery sends: `GET /bots?status=active`. */
  const ActiveQuery := BotQuery(None, Some("active"))

  /** Recovery as written, against `GET /bots` as written: the route reads
      only `ownerId`, so the `status` filter is dropped and every stored bot
      whose instance can be created is started, whatever its status. `rt` is
      the registry when the listing arrives. */
  function StartupAsWritten(db: Store, rt: Runtime, created: Entry<string, Bot> -> bool): (r: Runtime)
    ensures forall i :: 0 <= i < |db.bots| && created(db.bots[i]) ==> HasKey(r.bots, db.bots[i].key)
  {
    DeployActiveBots(rt, ListBots(db, ActiveQuery), created)
  }

  /** A draft bot is started by recovery as written. */
  lemma DraftBotStarted()
    ensures var db := Store(true, [], [Entry("b1", Bot("Demo", "token", "u1", [], [], Draft))], []);
            && db.bots[0].value.status != Active
            && HasKey(StartupAsWritten(db, Runtime([], []), d => true).bots, "b1")
  {
    var db := Store(true, [], [Entry("b1", Bot("Demo", "token", "u1", [], [], Draft))], []);
    assert db.bots[0].key == "b1";
  }

  /** A bot document satisfies both fields of a `GET /bots` query. */
  predicate Matches(q: BotQuery, e: Entry<string, Bot>) {
    && (Truthy(q.ownerId) ==> e.value.ownerId == q.ownerId.value)
    && (Truthy(q.status) ==> StatusName(e.value.status) == q.status.value)
  }

  function StatusIs(status: string): Entry<string, Bot> -> bool {
    (e: Entry<string, Bot>) => StatusName(e.value.status) == status
  }

  /** `GET /bots` honouring the `status` field as well as `ownerId`. */
  function ListBotsByQuery(db: Store, q: BotQuery): (r: seq<Entry<string, Bot>>)
    ensures forall i :: 0 <= i < |r| ==> r[i] in db.bots && Matches(q, r[i])
    ensures forall i :: 0 <= i < |db.bots| && Matches(q, db.bots[i]) ==> db.bots[i] in r
    ensures UniqueKeys(db.bots) ==> UniqueKeys(r)
  {
    var owned := ListBots(db, q);
    assert UniqueKeys(db.bots) ==> UniqueKeys(owned) by {
      if UniqueKeys(db.bots) && Truthy(q.ownerId) { FilterKeepsUnique(db.bots, OwnedBy(q.ownerId.value)); }
    }
    if Truthy(q.status) then
      var r := Seqs.Filter(owned, StatusIs(q.status.value));
      assert UniqueKeys(owned) ==> UniqueKeys(r) by {
        if UniqueKeys(owned) { FilterKeepsUnique(owned, StatusIs(q.status.value)); }
      }
      r
    else owned
  }

  /** A bot stored as active is in the corrected active listing, and every
      entry of that listing is an active stored bot. */
  lemma ActiveListing(db: Store)
    ensures forall i :: 0 <= i < |db.bots| && db.bots[i].value.status == Active ==>
              db.bots[i] in ListBotsByQuery(db, ActiveQuery)
    ensures forall e :: e in ListBotsByQuery(db, ActiveQuery) ==> e in db.bots && e.value.status == Active
  {
    var active := ListBotsByQuery(db, ActiveQuery);
    forall i | 0 <= i < |db.bots| && db.bots[i].value.status == Active ensures db.bots[i] in active {
      assert Matches(ActiveQuery, db.bots[i]);
    }
    forall e | e in active ensures e in db.bots && e.value.status == Active {
      var j :| 0 <= j < |active| && active[j] == e;
      assert Matches(ActiveQuery, active[j]);
    }
  }

  /** An active stored bot whose instance can be created, under `k`. */
  predicate Recovered(db: Store, created: Entry<string, Bot> -> bool, k: string) {
    exists e :: e in db.bots && e.key == k && e.value.status == Active && created(e)
  }

  /** The registry keys recovery over the corrected listing leaves: the live
      ones and the recovered ones, with every other key's entry untouched. */
  lemma RecoveredKeys(db: Store, rt: Runtime, created: Entry<string, Bot> -> bool)
    ensures var r := RecoverActiveBots(rt, ListBotsByQuery(db, ActiveQuery), created);
            && (forall k :: HasKey(r.bots, k) ==> HasKey(rt.bots, k) || Recovered(db, created, k))
            && (forall e :: e in db.bots && e.value.status == Active && created(e) ==> HasKey(r.bots, e.key))
            && (forall k :: !Recovered(db, created, k) ==> Find(r.bots, k) == Find(rt.bots, k))
  {
    var active := ListBotsByQuery(db, ActiveQuery);
    ActiveListing(db);
    var r := RecoverActiveBots(rt, active, created);
    forall k | HasKey(r.bots, k) && !HasKey(rt.bots, k) ensures Recovered(db, created, k) {
      var j :| 0 <= j < |active| && created(active[j]) && active[j].key == k;
      assert active[j] in active;
    }
    forall e | e in db.bots && e.value.status == Active && created(e) ensures HasKey(r.bots, e.key) {
      var j :| 0 <= j < |active| && active[j] == e;
    }
    forall k | !Recovered(db, created, k) ensures Find(r.bots, k) == Find(rt.bots, k) {
      forall i | 0 <= i < |active| && created(active[i]) ensures active[i].key != k {
        assert active[i] in active;
      }
    }
  }

  /** Recovery against the corrected listing, with the corrected step:
      exactly the active stored bots whose instances can be created are
      started, each under its `_id`, beside whatever was live when the listing
      arrived, and the registry agrees with the sessions. */
  function Startup(db: Store, rt: Runtime, created: Entry<string, Bot> -> bool): (r: Runtime)
    ensures forall k :: HasKey(r.bots, k) ==> HasKey(rt.bots, k) || Recovered(db, created, k)
    ensures forall e :: e in db.bots && e.value.status == Active && created(e) ==> HasKey(r.bots, e.key)
    ensures forall k :: HasKey(rt.bots, k) ==> HasKey(r.bots, k)
    ensures forall k :: !Recovered(db, created, k) ==> Find(r.bots, k) == Find(rt.bots, k)
    ensures Consistent(rt) ==> Consistent(r)
  {
    RecoveredKeys(db, rt, created);
    RecoverActiveBots(rt, ListBotsByQuery(db, ActiveQuery), created)
  }
}
