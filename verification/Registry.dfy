/**
 The connected agents and their slots as the coordinator updates them in place (kuiper-forge/src/agent_registry.rs).
 Every change is tied to the functions of Capacity and Failover, whose laws therefore hold of the objects. Locks,
 command channels and logging are not modelled: each method is one locked section.
 */
module Registry {
  import opened Common
  import opened Text
  import opened Labels
  import opened Capacity
  import opened Pools
  import F = Failover

  class ConnectedAgent {
    const agentId: string
    var maxVms: nat
    var activeVms: nat
    var capacity: AgentCapacity
    var labels: seq<string>
    var labelSets: seq<seq<string>>
    var reservations: map<string, Reservation>
    var unavailable: bool

    function Snapshot(): Agent
      reads this
    {
      Agent(maxVms, activeVms, capacity, labels, labelSets, reservations, unavailable)
    }

    constructor (agentId: string, maxVms: nat, activeVms: nat, labels: seq<string>, labelSets: seq<seq<string>>,
                 unavailable: bool)
      ensures this.agentId == agentId
      ensures Snapshot() == Agent(maxVms, activeVms, NoCapacity(), labels, labelSets, map[], unavailable)
    {
      this.agentId := agentId;
      this.maxVms, this.activeVms := maxVms, activeVms;
      this.capacity := NoCapacity();
      this.labels, this.labelSets := labels, labelSets;
      this.reservations := map[];
      this.unavailable := unavailable;
    }

    /** Returns false, and changes nothing, when the agent has no room. */
    method ReserveSlot(job: seq<string>, setId: string, runner: string, now: nat) returns (ok: bool)
      modifies this`reservations
      ensures ok == old(Snapshot()).HasCapacity(job, setId)
      ensures Snapshot() == old(Snapshot()).Reserve(job, setId, runner, now)
    {
      var a := Snapshot();
      if !a.HasCapacity(job, setId) {
        return false;
      }
      var limits := [];
      if a.LimitsPerSet() {
        limits := a.ReservedLimitNames(job, setId);
      }
      reservations := reservations[runner := Reservation(limits, now)];
      return true;
    }

    method ReleaseSlot(runner: string)
      modifies this`reservations
      ensures Snapshot() == old(Snapshot()).Release(runner)
    {
      reservations := reservations - {runner};
    }
  }

  function NoCapacity(): AgentCapacity { AgentCapacity([], [], [], [], None) }

  /** How one agent ranks for a job: least loaded first. */
  datatype Candidate = Candidate(avoided: bool, free: nat, inUse: nat, id: string)

  predicate Before(a: Candidate, b: Candidate) {
    if a.avoided != b.avoided then b.avoided
    else if a.free != b.free then a.free > b.free
    else if a.inUse != b.inUse then a.inUse < b.inUse
    else AtMost(a.id, b.id)
  }

  function Rank(id: string, a: Agent, job: seq<string>, avoid: seq<string>): Candidate {
    Candidate(id in avoid, a.AvailableCapacity(job, ""), a.activeVms + a.ReservedSlots(), id)
  }

  predicate Eligible(a: Agent, job: seq<string>, among: Agent -> bool) {
    among(a) && a.HasCapacity(job, "") && a.MatchesLabels(job)
  }

  /** The eligible agent that comes before all others. */
  predicate IsBest(agents: map<string, Agent>, job: seq<string>, avoid: seq<string>, among: Agent -> bool, id: string) {
    && id in agents && Eligible(agents[id], job, among)
    && forall other :: other in agents && Eligible(agents[other], job, among) ==>
         Before(Rank(id, agents[id], job, avoid), Rank(other, agents[other], job, avoid))
  }

  lemma BeforeIsOrder(a: Candidate, b: Candidate, c: Candidate)
    ensures Before(a, b) || Before(b, a)
    ensures Before(a, b) && Before(b, a) ==> a == b
    ensures Before(a, b) && Before(b, c) ==> Before(a, c)
  {
    AtMostIsTotal(a.id, b.id);
    if AtMost(a.id, b.id) && AtMost(b.id, a.id) { AtMostIsAntisymmetric(a.id, b.id); }
    if AtMost(a.id, b.id) && AtMost(b.id, c.id) { AtMostIsTransitive(a.id, b.id, c.id); }
  }

  /** The choice depends on the agents only, not on the order a hash map lists them in. */
  lemma BestIsUnique(agents: map<string, Agent>, job: seq<string>, avoid: seq<string>, among: Agent -> bool,
                     x: string, y: string)
    requires IsBest(agents, job, avoid, among, x) && IsBest(agents, job, avoid, among, y)
    ensures x == y
  {
    BeforeIsOrder(Rank(x, agents[x], job, avoid), Rank(y, agents[y], job, avoid), Rank(x, agents[x], job, avoid));
  }

  /** Agents that already failed the job are only chosen when no other fits. */
  lemma AvoidedIsLastResort(agents: map<string, Agent>, job: seq<string>, avoid: seq<string>, among: Agent -> bool,
                            best: string, other: string)
    requires IsBest(agents, job, avoid, among, best) && best in avoid
    requires other in agents && other !in avoid
    ensures !Eligible(agents[other], job, among)
  {
    assert !Before(Rank(best, agents[best], job, avoid), Rank(other, agents[other], job, avoid));
  }

  class AgentRegistry {
    var agents: map<string, ConnectedAgent>
    var disconnects: map<string, nat>
    var unavailable: set<string>

    /** Agents are filed under their own ids, so no two entries share an object. */
    ghost predicate Valid()
      reads this, agents.Values
    {
      && (forall id :: id in agents ==> agents[id].agentId == id)
    }

    function Links(): F.Links
      reads this
    {
      F.Links(agents.Keys, disconnects)
    }

    ghost function Snapshots(): map<string, Agent>
      reads this, agents.Values
    {
      map id | id in agents :: agents[id].Snapshot()
    }

    constructor ()
      ensures Valid() && Links() == F.After([]) && unavailable == {}
    {
      agents, disconnects, unavailable := map[], map[], {};
    }

    method Register(id: string, maxVms: nat, activeVms: nat, labels: seq<string>, labelSets: seq<seq<string>>)
      returns (agent: ConnectedAgent)
      requires Valid()
      modifies this`agents, this`disconnects
      ensures Valid() && fresh(agent) && agents == old(agents)[id := agent]
      ensures Links() == old(Links()).Register(id)
      ensures agent.Snapshot() == Agent(maxVms, activeVms, NoCapacity(), labels, labelSets, map[], id in unavailable)
    {
      agent := new ConnectedAgent(id, maxVms, activeVms, labels, labelSets, id in unavailable);
      agents := agents[id := agent];
      disconnects := disconnects - {id};
    }

    method Unregister(id: string, now: nat) returns (stamp: nat)
      requires Valid()
      modifies this`agents, this`disconnects
      ensures Valid() && stamp == now && agents == old(agents) - {id}
      ensures Links() == old(Links()).Unregister(id, stamp)
    {
      stamp := now;
      disconnects := disconnects[id := stamp];
      agents := agents - {id};
    }

    method ClaimFailover(id: string, stamp: nat) returns (ok: bool)
      requires Valid()
      modifies this`disconnects
      ensures ok == old(Links()).CanClaim(id, stamp)
      ensures Links() == old(Links()).Claim(id, stamp)
    {
      if id in agents || id !in disconnects || disconnects[id] != stamp {
        return false;
      }
      disconnects := disconnects - {id};
      return true;
    }

    /** Kept for agents that aren't connected too, and picked up when they connect. */
    method SetUnavailable(id: string, value: bool)
      requires Valid()
      modifies this`unavailable, (if id in agents then {agents[id]} else {})`unavailable
      ensures Valid() && agents == old(agents)
      ensures unavailable == if value then old(unavailable) + {id} else old(unavailable) - {id}
      ensures id in agents ==> agents[id].Snapshot() == old(agents[id].Snapshot()).(unavailable := value)
    {
      unavailable := if value then unavailable + {id} else unavailable - {id};
      if id in agents {
        agents[id].unavailable := value;
      }
    }

    method UpdateStatus(id: string, status: Status)
      requires Valid()
      modifies (if id in agents then {agents[id]} else {})
      ensures Valid()
      ensures id in agents ==> agents[id].Snapshot() == old(agents[id].Snapshot()).WithStatus(status)
    {
      if id in agents {
        var agent := agents[id];
        agent.activeVms, agent.maxVms, agent.labels := status.activeVms, status.maxVms, status.labels;
        agent.labelSets :=
          seq(|status.labelSets|, i requires 0 <= i < |status.labelSets| => status.labelSets[i].labels);
      }
    }

    method SetCapacity(id: string, capacity: AgentCapacity)
      requires Valid()
      modifies (if id in agents then {agents[id]} else {})`capacity
      ensures Valid()
      ensures id in agents ==> agents[id].Snapshot() == old(agents[id].Snapshot()).WithCapacity(capacity)
    {
      if id in agents && agents[id].capacity != capacity {
        agents[id].capacity := capacity;
      }
    }

    method SettleReservations(id: string, vms: seq<string>)
      requires Valid()
      modifies (if id in agents then {agents[id]} else {})`reservations
      ensures Valid()
      ensures id in agents ==> agents[id].Snapshot() == old(agents[id].Snapshot()).Settle(vms)
    {
      if id in agents {
        var held := agents[id].reservations;
        agents[id].reservations := map n | n in held && n !in vms :: held[n];
      }
    }

    /** One status message, as the server applies it: limits first, then counts, then reservations. */
    method ApplyStatus(id: string, status: Status)
      requires Valid()
      modifies (if id in agents then {agents[id]} else {})
      ensures Valid()
      ensures id in agents ==>
                agents[id].Snapshot()
                == old(agents[id].Snapshot()).WithCapacity(CapacityOf(status)).WithStatus(status).Settle(status.vms)
    {
      SetCapacity(id, CapacityOf(status));
      UpdateStatus(id, status);
      SettleReservations(id, status.vms);
    }

    method ReserveSlot(id: string, job: seq<string>, setId: string, runner: string, now: nat) returns (ok: bool)
      requires Valid()
      modifies (if id in agents then {agents[id]} else {})`reservations
      ensures Valid()
      ensures ok == (id in agents && old(agents[id].Snapshot()).HasCapacity(job, setId))
      ensures id in agents ==> agents[id].Snapshot() == old(agents[id].Snapshot()).Reserve(job, setId, runner, now)
    {
      if id in agents {
        ok := agents[id].ReserveSlot(job, setId, runner, now);
      } else {
        ok := false;
      }
    }

    method ReleaseSlot(id: string, runner: string)
      requires Valid()
      modifies (if id in agents then {agents[id]} else {})`reservations
      ensures Valid()
      ensures id in agents ==> agents[id].Snapshot() == old(agents[id].Snapshot()).Release(runner)
    {
      if id in agents {
        agents[id].ReleaseSlot(runner);
      }
    }

    method ReconcileReservations(id: string, recorded: seq<string>, minAge: nat, now: nat)
      requires Valid()
      modifies (if id in agents then {agents[id]} else {})`reservations
      ensures Valid()
      ensures id in agents ==> agents[id].Snapshot() == old(agents[id].Snapshot()).Reconcile(recorded, minAge, now)
    {
      if id in agents {
        var agent := agents[id];
        var held := agent.reservations;
        var stale := set n | n in held && Sub(now, held[n].at) >= minAge && n !in recorded;
        var left := stale;
        while left != {}
          invariant left <= stale && agents == old(agents)
          invariant agent.reservations == held - (stale - left)
          invariant agent.Snapshot() == old(agent.Snapshot()).(reservations := agent.reservations)
        {
          var name :| name in left;
          agent.reservations := agent.reservations - {name};
          left := left - {name};
        }
      }
    }

    ghost function Offers(): map<string, Offer>
      reads this, agents.Values
    {
      map id | id in agents :: OfferOf(agents[id].Snapshot(), id)
    }

    /** The pools of the connected agents. */
    method GetPoolDefinitions() returns (pools: seq<PoolDefinition>)
      requires Valid()
      ensures forall p :: p in pools <==> IsPool(Offers(), p)
      ensures OneLegacyPoolPerLabels(pools)
      ensures OwnKeysDiffer(Offers()) ==> DistinctKeys(pools)
    {
      var offers := map id | id in agents :: OfferOf(agents[id].Snapshot(), agents[id].agentId);
      assert offers == Offers();
      forall id | id in offers && offers[id].Own? ensures AreOf(id, offers[id].pools) {
        forall p | p in offers[id].pools ensures p.agentId == Some(id) {
          OwnPoolsHaveAnAgent(agents[id].Snapshot(), id, p);
        }
      }
      pools := CollectPools(offers);
    }

    /** The least loaded agent that fits the job. Agents are visited in any order. */
    method SelectAgentWhere(job: seq<string>, avoid: seq<string>, among: Agent -> bool) returns (r: Option<string>)
      requires Valid()
      ensures r.Some? ==> IsBest(Snapshots(), job, avoid, among, r.value)
      ensures r.None? ==> forall id :: id in agents ==> !Eligible(agents[id].Snapshot(), job, among)
    {
      r := None;
      var left := agents.Keys;
      while left != {}
        invariant left <= agents.Keys
        invariant r.None? ==>
                    forall id :: id in agents && id !in left ==> !Eligible(agents[id].Snapshot(), job, among)
        invariant r.Some? ==> IsBest(map id | id in Snapshots() && id !in left :: Snapshots()[id],
                                     job, avoid, among, r.value)
      {
        var id :| id in left;
        var a := agents[id].Snapshot();
        ghost var seen := map x | x in Snapshots() && x !in left :: Snapshots()[x];
        left := left - {id};
        ghost var more := map x | x in Snapshots() && x !in left :: Snapshots()[x];
        assert more == seen[id := a];
        if Eligible(a, job, among) {
          var mine := Rank(id, a, job, avoid);
          if r == None || Before(mine, Rank(r.value, agents[r.value].Snapshot(), job, avoid)) {
            NewBest(seen, job, avoid, among, id, a, r);
            r := Some(id);
          } else {
            var best := Rank(r.value, agents[r.value].Snapshot(), job, avoid);
            BeforeIsOrder(mine, best, mine);
          }
        }
      }
      assert (map x | x in Snapshots() && x !in left :: Snapshots()[x]) == Snapshots();
    }

    /** As `create_runner_on_demand` begins: the best agent is chosen and a slot reserved on it. With nothing in
        between, that only fails for want of an agent. */
    method PlaceRunner(job: seq<string>, avoid: seq<string>, among: Agent -> bool, runner: string, now: nat)
      returns (r: Option<string>)
      requires Valid()
      modifies set id | id in agents :: agents[id]
      ensures Valid() && agents == old(agents)
      ensures r.None? ==> forall id :: id in agents ==> !Eligible(old(agents[id].Snapshot()), job, among)
      ensures r.Some? ==>
                && IsBest(old(Snapshots()), job, avoid, among, r.value)
                && agents[r.value].Snapshot() == old(agents[r.value].Snapshot()).Reserve(job, "", runner, now)
                && runner in agents[r.value].reservations
      ensures forall id :: id in agents && r != Some(id) ==> agents[id].Snapshot() == old(agents[id].Snapshot())
    {
      r := SelectAgentWhere(job, avoid, among);
      if r.Some? {
        var ok := ReserveSlot(r.value, job, "", runner, now);
        assert ok;
      }
    }
  }

  predicate OneLegacyPoolPerLabels(pools: seq<PoolDefinition>) {
    forall i, j :: 0 <= i < j < |pools| && pools[i].agentId == None && pools[j].agentId == None ==>
      pools[i].labels != pools[j].labels
  }

  predicate AreOf(id: string, pools: seq<PoolDefinition>) { forall p :: p in pools ==> p.agentId == Some(id) }

  /** Of the pools listed, an agent's legacy offer is counted in exactly one, whose target has room for it. */
  lemma OnePoolPerLegacyOffer(offers: map<string, Offer>, pools: seq<PoolDefinition>, id: string) returns (k: nat)
    requires (forall p :: p in pools <==> IsPool(offers, p)) && OneLegacyPoolPerLabels(pools)
    requires id in offers && offers[id].Legacy?
    ensures k < |pools| && pools[k].agentId.None? && pools[k].labels == offers[id].labels
    ensures pools[k].target >= offers[id].ceiling
    ensures forall j :: 0 <= j < |pools| && pools[j].agentId.None? && id in Members(offers, pools[j].labels) ==> j == k
  {
    var members := Members(offers, offers[id].labels);
    assert id in members;
    var p := PoolDefinition(offers[id].labels, TotalCeiling(members, offers), None, "");
    assert IsLegacyPool(offers, p);
    TotalTakes(members, offers, id);
    assert IsPool(offers, p) && p in pools;
    k :| 0 <= k < |pools| && pools[k] == p;
  }

  /** No agent has two pools of its own with one key. */
  predicate OwnKeysDiffer(offers: map<string, Offer>) {
    forall id :: id in offers && offers[id].Own? ==> DistinctKeys(offers[id].pools)
  }

  /** With plain labels, that is so exactly if each agent's sized label sets differ in labels or id. */
  lemma OwnKeysDifferIff(agents: map<string, Agent>, offers: map<string, Offer>)
    requires offers.Keys == agents.Keys && forall id :: id in agents ==> offers[id] == OfferOf(agents[id], id)
    requires forall id :: id in agents ==> forall m :: m in Marks(agents[id]) ==> Plain(m.0)
    ensures OwnKeysDiffer(offers) <==> forall id :: id in agents && offers[id].Own? ==> NoDuplicates(Marks(agents[id]))
  {
    forall id | id in agents && offers[id].Own?
      ensures DistinctKeys(offers[id].pools) <==> NoDuplicates(Marks(agents[id]))
    {
      OwnKeysDifferIffSetsDo(id, agents[id]);
    }
  }

  function Marks(a: Agent): seq<(seq<string>, string)> { SetMarks(a, |a.labelSets|) }

  /** The loop over the agents' offers, in any order. */
  method CollectPools(offers: map<string, Offer>) returns (pools: seq<PoolDefinition>)
    requires forall id :: id in offers && offers[id].Own? ==> AreOf(id, offers[id].pools)
    ensures forall p :: p in pools <==> IsPool(offers, p)
    ensures OneLegacyPoolPerLabels(pools)
    ensures OwnKeysDiffer(offers) ==> DistinctKeys(pools)
  {
    var legacy, own := CollectOffers(offers);
    pools := ListLegacyPools(legacy);
    CollectedIsAll(offers, legacy, own, pools);
    ListedThenOwnDistinct(pools, own, offers.Keys, OwnKeysDiffer(offers));
    pools := pools + own;
  }

  method CollectOffers(offers: map<string, Offer>) returns (legacy: map<seq<string>, nat>, own: seq<PoolDefinition>)
    requires forall id :: id in offers && offers[id].Own? ==> AreOf(id, offers[id].pools)
    ensures Collected(offers, legacy, own) && OwnDistinct(offers.Keys, own, OwnKeysDiffer(offers))
  {
    legacy, own := map[], [];
    var left := offers.Keys;
    NothingCollected(offers);
    while left != {}
      invariant left <= offers.Keys
      invariant IsCollected(offers, left, legacy, own)
      decreases |left|
    {
      var id :| id in left;
      legacy, own := CollectOffer(offers, left, id, legacy, own);
      left := left - {id};
    }
    assert Seen(offers, {}) == offers;
  }

  function Seen(offers: map<string, Offer>, left: set<string>): map<string, Offer> {
    map id | id in offers && id !in left :: offers[id]
  }

  ghost predicate IsCollected(offers: map<string, Offer>, left: set<string>, legacy: map<seq<string>, nat>,
                              own: seq<PoolDefinition>) {
    Collected(Seen(offers, left), legacy, own) && OwnDistinct(Seen(offers, left).Keys, own, OwnKeysDiffer(offers))
  }

  lemma NothingCollected(offers: map<string, Offer>)
    ensures IsCollected(offers, offers.Keys, map[], [])
  {
    assert Seen(offers, offers.Keys) == map[];
  }

  method CollectOffer(offers: map<string, Offer>, ghost left: set<string>, id: string,
                      legacy0: map<seq<string>, nat>, own0: seq<PoolDefinition>)
    returns (legacy: map<seq<string>, nat>, own: seq<PoolDefinition>)
    requires id in left && left <= offers.Keys && IsCollected(offers, left, legacy0, own0)
    requires forall id :: id in offers && offers[id].Own? ==> AreOf(id, offers[id].pools)
    ensures IsCollected(offers, left - {id}, legacy, own)
  {
    legacy, own := legacy0, own0;
    ghost var seen := Seen(offers, left);
    var offer := offers[id];
    assert Seen(offers, left - {id}) == seen[id := offer];
    assert seen[id := offer].Keys == seen.Keys + {id};
    if offer.Legacy? {
      CollectLegacy(seen, legacy, own, id, offer);
      var before := if offer.labels in legacy then legacy[offer.labels] else 0;
      legacy := legacy[offer.labels := before + offer.ceiling];
    } else {
      CollectUnshared(seen, legacy, own, id, offer);
      var more := if offer.Own? then offer.pools else [];
      OwnDistinctGrows(seen.Keys, own, id, more, OwnKeysDiffer(offers));
      own := own + more;
    }
  }

  /** Pools that these agents made of their own, with keys that differ if each agent's do. */
  predicate OwnDistinct(ids: set<string>, own: seq<PoolDefinition>, differ: bool) {
    (forall p :: p in own ==> p.agentId.Some? && p.agentId.value in ids) && (differ ==> DistinctKeys(own))
  }

  lemma OwnDistinctGrows(ids: set<string>, own: seq<PoolDefinition>, id: string, more: seq<PoolDefinition>,
                         differ: bool)
    requires OwnDistinct(ids, own, differ) && id !in ids
    requires AreOf(id, more) && (differ ==> DistinctKeys(more))
    ensures OwnDistinct(ids + {id}, own + more, differ)
  {
    if differ {
      DistinctKeysConcat(own, more);
    }
  }

  lemma ListedThenOwnDistinct(listed: seq<PoolDefinition>, own: seq<PoolDefinition>, ids: set<string>, differ: bool)
    requires OneLegacyPoolPerLabels(listed) && (forall p :: p in listed ==> p.agentId.None?)
    requires OwnDistinct(ids, own, differ)
    ensures differ ==> DistinctKeys(listed + own)
  {
    assert forall i :: 0 <= i < |listed| ==> listed[i] in listed;
    if differ {
      DistinctKeysConcat(listed, own);
    }
  }

  predicate ListsLegacy(legacy: map<seq<string>, nat>, p: PoolDefinition) {
    p.labels in legacy && p == PoolDefinition(p.labels, legacy[p.labels], None, "")
  }

  lemma CollectedIsAll(offers: map<string, Offer>, legacy: map<seq<string>, nat>, own: seq<PoolDefinition>,
                       listed: seq<PoolDefinition>)
    requires Collected(offers, legacy, own) && OneLegacyPoolPerLabels(listed)
    requires forall p :: p in listed <==> ListsLegacy(legacy, p)
    requires forall id :: id in offers && offers[id].Own? ==> AreOf(id, offers[id].pools)
    ensures forall p :: p in listed + own <==> IsPool(offers, p)
    ensures OneLegacyPoolPerLabels(listed + own)
  {
    forall p ensures p in listed + own <==> IsPool(offers, p) {
      assert p in listed <==> IsLegacyPool(offers, p);
    }
    forall p | p in own ensures p.agentId.Some? {
      assert IsOwnPool(offers, p);
    }
  }

  /** The legacy pools of a map from labels to target, in any order. */
  method ListLegacyPools(legacy: map<seq<string>, nat>) returns (pools: seq<PoolDefinition>)
    ensures forall p :: p in pools <==> ListsLegacy(legacy, p)
    ensures OneLegacyPoolPerLabels(pools)
  {
    pools := [];
    var left := legacy.Keys;
    while left != {}
      invariant left <= legacy.Keys
      invariant forall p :: p in pools <==> p.labels !in left && ListsLegacy(legacy, p)
      invariant OneLegacyPoolPerLabels(pools)
    {
      var labels :| labels in left;
      forall i | 0 <= i < |pools| ensures pools[i].labels != labels {
        assert pools[i] in pools;
      }
      pools := pools + [PoolDefinition(labels, legacy[labels], None, "")];
      left := left - {labels};
    }
  }

  lemma NewBest(seen: map<string, Agent>, job: seq<string>, avoid: seq<string>, among: Agent -> bool,
                id: string, a: Agent, best: Option<string>)
    requires id !in seen && Eligible(a, job, among)
    requires best.Some? ==> IsBest(seen, job, avoid, among, best.value) &&
                            Before(Rank(id, a, job, avoid), Rank(best.value, seen[best.value], job, avoid))
    requires best.None? ==> forall x :: x in seen ==> !Eligible(seen[x], job, among)
    ensures IsBest(seen[id := a], job, avoid, among, id)
  {
    var more := seen[id := a];
    forall x | x in more && Eligible(more[x], job, among)
      ensures Before(Rank(id, a, job, avoid), Rank(x, more[x], job, avoid))
    {
      var mine := Rank(id, a, job, avoid);
      BeforeIsOrder(mine, mine, mine);
      if best.Some? {
        BeforeIsOrder(mine, Rank(best.value, seen[best.value], job, avoid), Rank(x, more[x], job, avoid));
      }
    }
  }
}
