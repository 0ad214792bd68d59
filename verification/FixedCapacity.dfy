/**
 Keeping fixed-capacity pools filled (kuiper-forge/src/fleet.rs): a pass tops up each pool the agents make, while
 runners may go away at any time. The agents' labels and availability stay as they are during a pass; their free
 capacity doesn't.
 */
module FixedCapacity {
  import opened Common
  import opened Capacity
  import opened Pools
  import opened Registry

  /** A runner's record: its agent, and the key of the explicit pool it was made for. */
  datatype PoolRunner = PoolRunner(agent: string, pool: Option<string>)

  predicate CountsFor(agents: map<string, Agent>, p: PoolDefinition, r: PoolRunner) {
    match p.agentId
    case Some(id) => r.agent == id && r.pool == Some(p.Key())
    case None => IsMember(agents, p.labels, r.agent)
  }

  predicate IsMember(agents: map<string, Agent>, labels: seq<string>, id: string) {
    id in agents && !agents[id].unavailable && InLegacyPool(agents[id], labels)
  }

  function LegacyMembers(agents: map<string, Agent>, labels: seq<string>): set<string> {
    set id | id in agents && IsMember(agents, labels, id)
  }

  function Counted(agents: map<string, Agent>, p: PoolDefinition, records: map<string, PoolRunner>): set<string> {
    set n | n in records && CountsFor(agents, p, records[n])
  }

  function Of(records: map<string, PoolRunner>, ids: set<string>): set<string> {
    set n | n in records && records[n].agent in ids
  }

  function Max(a: nat, b: nat): nat { if a < b then b else a }

  /** No runner counts for both. */
  ghost predicate Apart(agents: map<string, Agent>, p: PoolDefinition, q: PoolDefinition) {
    forall r :: !(CountsFor(agents, p, r) && CountsFor(agents, q, r))
  }

  /** Explicit pools belong to agents that have pools of their own. */
  predicate OwnedRightly(agents: map<string, Agent>, p: PoolDefinition) {
    p.agentId.Some? ==> p.agentId.value in agents && HasExplicitPools(agents[p.agentId.value])
  }

  /** Pools share runners exactly if they have one key, or are legacy pools of nobody. */
  lemma DifferentKeysAreApart(agents: map<string, Agent>, p: PoolDefinition, q: PoolDefinition)
    requires OwnedRightly(agents, p) && OwnedRightly(agents, q)
    ensures Apart(agents, p, q) <==> !SameKey(p, q) || (p.agentId.None? && LegacyMembers(agents, p.labels) == {})
  {
    assert forall id :: IsMember(agents, p.labels, id) ==> id in LegacyMembers(agents, p.labels);
    if SameKey(p, q) {
      if p.agentId.Some? {
        var r := PoolRunner(p.agentId.value, Some(p.Key()));
        assert CountsFor(agents, p, r) && CountsFor(agents, q, r);
      } else if id :| id in LegacyMembers(agents, p.labels) {
        var r := PoolRunner(id, None);
        assert CountsFor(agents, p, r) && CountsFor(agents, q, r);
      }
    }
  }

  /** The pools that agents make of their own are owned rightly. */
  lemma OwnPoolsAreOwnedRightly(agents: map<string, Agent>, id: string, p: PoolDefinition)
    requires id in agents && OfferOf(agents[id], id).Own? && p in OfferOf(agents[id], id).pools
    ensures p.agentId == Some(id) && OwnedRightly(agents, p)
  {
    OwnPoolsHaveAnAgent(agents[id], id, p);
  }

  lemma PoolsAreOwnedRightly(agents: map<string, Agent>, offers: map<string, Offer>, pools: seq<PoolDefinition>)
    requires offers.Keys == agents.Keys && forall id :: id in agents ==> offers[id] == OfferOf(agents[id], id)
    requires forall p :: p in pools ==> IsPool(offers, p)
    ensures forall p :: p in pools ==> OwnedRightly(agents, p)
  {
    forall p | p in pools ensures OwnedRightly(agents, p) {
      if p.agentId.Some? {
        var id :| id in offers && offers[id].Own? && p in offers[id].pools;
        OwnPoolsAreOwnedRightly(agents, id, p);
      }
    }
  }

  /** What was added counts for `p`, everything else was there before. */
  predicate Grew(agents: map<string, Agent>, p: PoolDefinition, before: map<string, PoolRunner>,
                 after: map<string, PoolRunner>, added: set<string>) {
    && after.Keys <= before.Keys + added && added !! before.Keys
    && (forall n :: n in after && n in before ==> after[n] == before[n])
    && (forall n :: n in after && n in added ==> CountsFor(agents, p, after[n]))
  }

  lemma GrowthIsCounted(agents: map<string, Agent>, p: PoolDefinition, before: map<string, PoolRunner>,
                        after: map<string, PoolRunner>, added: set<string>)
    requires Grew(agents, p, before, after, added)
    ensures |Counted(agents, p, after)| <= |Counted(agents, p, before)| + |added|
    ensures forall q :: Apart(agents, p, q) ==> |Counted(agents, q, after)| <= |Counted(agents, q, before)|
  {
    assert Counted(agents, p, after) <= Counted(agents, p, before) + added;
    SubsetSize(Counted(agents, p, after), Counted(agents, p, before) + added);
    forall q | Apart(agents, p, q) ensures |Counted(agents, q, after)| <= |Counted(agents, q, before)| {
      assert Counted(agents, q, after) <= Counted(agents, q, before);
      SubsetSize(Counted(agents, q, after), Counted(agents, q, before));
    }
  }

  lemma OfGrows(records: map<string, PoolRunner>, ids: set<string>, id: string)
    requires id !in ids
    ensures |Of(records, ids + {id})| == |Of(records, ids)| + |Of(records, {id})|
  {
    assert Of(records, ids + {id}) == Of(records, ids) + Of(records, {id});
    assert Of(records, ids) !! Of(records, {id});
  }

  lemma GrewByOne(agents: map<string, Agent>, p: PoolDefinition, before: map<string, PoolRunner>,
                  after: map<string, PoolRunner>, added: set<string>, name: string, r: PoolRunner)
    requires Grew(agents, p, before, after, added) && name !in before && CountsFor(agents, p, r)
    ensures Grew(agents, p, before, after[name := r], added + {name})
  {
  }

  lemma ShrankAfterwards(agents: map<string, Agent>, p: PoolDefinition, before: map<string, PoolRunner>,
                         after: map<string, PoolRunner>, added: set<string>, gone: set<string>)
    requires Grew(agents, p, before, after, added)
    ensures Grew(agents, p, before, after - gone, added)
  {
  }

  function RecordFor(p: PoolDefinition, id: string): PoolRunner {
    PoolRunner(id, if p.agentId.Some? then Some(p.Key()) else None)
  }

  /** How one iteration goes: runners gone meanwhile, the agent found, and whether it had room and a token was to be
      had. */
  datatype Attempt = Attempt(gone: set<string>, found: Option<string>, reserved: bool, token: bool)

  predicate Possible(agents: map<string, Agent>, p: PoolDefinition, a: Attempt) {
    p.agentId.None? && a.found.Some? ==> a.found.value in LegacyMembers(agents, p.labels)
  }

  class FleetManager {
    var records: map<string, PoolRunner>

    method CountRunnersForPool(agents: map<string, Agent>, p: PoolDefinition) returns (total: nat)
      ensures total == |Counted(agents, p, records)|
    {
      if p.agentId.Some? {
        var counted := set n | n in records && records[n].agent == p.agentId.value && records[n].pool == Some(p.Key());
        assert counted == Counted(agents, p, records);
        return |counted|;
      }
      total := 0;
      var left := agents.Keys;
      ghost var members: set<string> := {};
      while left != {}
        invariant left <= agents.Keys
        invariant forall id :: id in members <==> id !in left && IsMember(agents, p.labels, id)
        invariant total == |Of(records, members)|
        decreases |left|
      {
        var id :| id in left;
        left := left - {id};
        if IsMember(agents, p.labels, id) {
          OfGrows(records, members, id);
          total := total + |Of(records, {id})|;
          members := members + {id};
        }
      }
      assert forall n :: n in Counted(agents, p, records) <==> n in Of(records, members);
      assert Counted(agents, p, records) == Of(records, members);
    }

    /** Tops up one pool; `capacity` is what the agents have free. */
    method ReconcilePool(agents: map<string, Agent>, p: PoolDefinition, capacity: nat, attempts: seq<Attempt>,
                         newName: set<string> -> string)
      requires forall used :: newName(used) !in used
      requires |attempts| >= p.target && forall a :: a in attempts ==> Possible(agents, p, a)
      modifies this`records
      ensures |Counted(agents, p, records)| <= Max(|Counted(agents, p, old(records))|, p.target)
      ensures forall q :: Apart(agents, p, q) ==> |Counted(agents, q, records)| <= |Counted(agents, q, old(records))|
    {
      var known := records.Keys;
      var current := CountRunnersForPool(agents, p);
      if current >= p.target || capacity == 0 {
        return;
      }
      var needed := p.target - current;
      var toCreate := if needed < capacity then needed else capacity;
      ghost var added: set<string> := {};
      var i := 0;
      while i < toCreate
        invariant 0 <= i <= toCreate && |added| <= i
        invariant Grew(agents, p, old(records), records, added)
      {
        var a := attempts[i];
        assert Possible(agents, p, a);
        i := i + 1;
        ShrankAfterwards(agents, p, old(records), records, added, a.gone);
        records := records - a.gone;
        var found := if p.agentId.Some? then p.agentId else a.found;
        if found.None? {
          break;
        }
        var name := newName(known + records.Keys);
        if !a.reserved {
          continue;
        }
        if !a.token {
          break;
        }
        GrewByOne(agents, p, old(records), records, added, name, RecordFor(p, found.value));
        records := records[name := RecordFor(p, found.value)];
        added := added + {name};
      }
      GrowthIsCounted(agents, p, old(records), records, added);
    }

    /** A pass over all pools: none ends above both its target and what it had before. */
    method Reconcile(agents: map<string, Agent>, pools: seq<PoolDefinition>, capacity: PoolDefinition -> nat,
                     attempts: PoolDefinition -> seq<Attempt>, newName: set<string> -> string)
      requires forall used :: newName(used) !in used
      requires forall p :: p in pools ==>
                 |attempts(p)| >= p.target && forall a :: a in attempts(p) ==> Possible(agents, p, a)
      requires forall p :: p in pools ==> OwnedRightly(agents, p)
      requires DistinctKeys(pools)
      modifies this`records
      ensures forall p :: p in pools ==>
                |Counted(agents, p, records)| <= Max(|Counted(agents, p, old(records))|, p.target)
    {
      for i := 0 to |pools|
        invariant forall k :: 0 <= k < i ==>
                    |Counted(agents, pools[k], records)|
                    <= Max(|Counted(agents, pools[k], old(records))|, pools[k].target)
        invariant forall k :: i <= k < |pools| ==>
                    |Counted(agents, pools[k], records)| <= |Counted(agents, pools[k], old(records))|
      {
        forall k | 0 <= k < |pools| && k != i ensures Apart(agents, pools[i], pools[k]) {
          DifferentKeysAreApart(agents, pools[i], pools[k]);
        }
        assert pools[i] in pools;
        ReconcilePool(agents, pools[i], capacity(pools[i]), attempts(pools[i]), newName);
      }
    }

    /** A pass over the pools that the connected agents make, if no agent has two of its own with one key. */
    method ReconcileConnected(registry: AgentRegistry, capacity: PoolDefinition -> nat,
                              attempts: PoolDefinition -> seq<Attempt>, newName: set<string> -> string)
      requires registry.Valid() && OwnKeysDiffer(registry.Offers())
      requires forall used :: newName(used) !in used
      requires forall p :: |attempts(p)| >= p.target
      requires forall p, a :: a in attempts(p) ==> Possible(registry.Snapshots(), p, a)
      modifies this`records
      ensures forall p :: IsPool(old(registry.Offers()), p) ==>
                |Counted(old(registry.Snapshots()), p, records)|
                <= Max(|Counted(old(registry.Snapshots()), p, old(records))|, p.target)
    {
      var pools := registry.GetPoolDefinitions();
      var agents := map id | id in registry.agents :: registry.agents[id].Snapshot();
      assert agents == registry.Snapshots();
      PoolsAreOwnedRightly(agents, registry.Offers(), pools);
      Reconcile(agents, pools, capacity, attempts, newName);
    }
  }
}
