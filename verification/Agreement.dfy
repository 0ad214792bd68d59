/**
 The coordinator works out which label set an agent will create a runner from, with an algorithm of its own. It and
 the agent's must agree, or the coordinator counts the runner against the wrong limits.
 */
module Agreement {
  import opened Common
  import opened Text
  import opened Labels
  import opened Capacity

  /** An agent's image or template configuration, and which limits each resource counts against. */
  datatype Config = Config(base: seq<string>, baseId: string, mappings: seq<Mapping>, setLimits: seq<seq<string>>,
                           flagsDefault: bool)
  {
    predicate Valid() { |setLimits| == |mappings| + 1 }

    function Capability(i: nat): Capability
      requires i <= |mappings|
    {
      Capabilities(base, baseId, mappings)[i]
    }

    /** The label sets in the agent's status. Older agents flag none of them as the default. */
    function LabelSets(): (r: seq<LabelSet>)
      requires Valid()
      ensures |r| == |mappings| + 1
    {
      seq(|mappings| + 1, i requires 0 <= i <= |mappings| =>
        LabelSet(Capability(i).labels, setLimits[i], Capability(i).pool, Capability(i).id,
                 flagsDefault && Capability(i).isDefault))
    }

    /** The set that the agent really creates the runner from. */
    function UsedSet(job: seq<string>, setId: string): (i: nat)
      ensures i <= |mappings|
    {
      match MappingFor(base, baseId, mappings, setId, job)
      case Some(k) => k
      case None => |mappings|
    }
  }

  /** The coordinator's record after it applied a status of this agent. */
  predicate Knows(a: Agent, cfg: Config)
    requires cfg.Valid()
  {
    var sets := cfg.LabelSets();
    && a.labels == cfg.base
    && a.labelSets == seq(|sets|, i requires 0 <= i < |sets| => sets[i].labels)
    && a.capacity.labelSetLimits == cfg.setLimits
    && a.capacity.labelSetIds == seq(|sets|, i requires 0 <= i < |sets| => sets[i].id)
    && a.capacity.defaultSet == if cfg.flagsDefault then Some(|cfg.mappings|) else None
  }

  lemma StatusIsKnown(a: Agent, cfg: Config, status: Status)
    requires cfg.Valid() && status.labels == cfg.base && status.labelSets == cfg.LabelSets()
    ensures Knows(a.WithCapacity(CapacityOf(status)).WithStatus(status), cfg)
    ensures Knows(a.WithStatus(status).WithCapacity(CapacityOf(status)), cfg)
  {
    var sets := cfg.LabelSets();
    assert CapacityOf(status).labelSetLimits == cfg.setLimits;
    assert forall i :: 0 <= i < |cfg.mappings| ==> !sets[i].isDefault;
    assert sets[|cfg.mappings|].isDefault == cfg.flagsDefault;
  }

  lemma AdvertisedSetHas(a: Agent, cfg: Config, i: nat, l: string)
    requires cfg.Valid() && Knows(a, cfg) && i <= |cfg.mappings|
    ensures HasLabel(a.labelSets[i], l) <==>
              HasLabel(cfg.base, l) || (i < |cfg.mappings| && HasLabel(cfg.mappings[i].labels, l))
  {
    LowerAllHasSame(cfg.base, l);
    if i < |cfg.mappings| {
      AddLabelsHasBoth(LowerAll(cfg.base), cfg.mappings[i].labels, l);
    }
  }

  lemma CoversIffCovered(a: Agent, cfg: Config, i: nat, job: seq<string>)
    requires cfg.Valid() && Knows(a, cfg) && i < |cfg.mappings|
    ensures SetCovers(a.labelSets[i], job) <==> Covered(cfg.base, cfg.mappings[i], job)
  {
    forall l ensures HasLabel(a.labelSets[i], l) <==>
                       HasLabel(cfg.base, l) || HasLabel(cfg.mappings[i].labels, l)
    {
      AdvertisedSetHas(a, cfg, i, l);
    }
  }

  lemma AsksIffRequests(a: Agent, cfg: Config, i: nat, job: seq<string>)
    requires cfg.Valid() && Knows(a, cfg) && i < |cfg.mappings|
    ensures a.AsksForExtra(a.labelSets[i], job) <==> Requests(cfg.base, cfg.mappings[i], job)
  {
    if a.AsksForExtra(a.labelSets[i], job) {
      var l :| l in a.labelSets[i] && !HasLabel(a.labels, l) && HasLabel(job, l);
      var j :| j in job && EqIgnoreCase(j, l);
      HasLabelFolds(cfg.base, j, l);
      HasLabelFolds(cfg.mappings[i].labels, j, l);
      assert HasLabel(a.labelSets[i], l);
      AdvertisedSetHas(a, cfg, i, l);
    }
    if Requests(cfg.base, cfg.mappings[i], job) {
      var j :| j in job && !HasLabel(cfg.base, j) && HasLabel(cfg.mappings[i].labels, j);
      AdvertisedSetHas(a, cfg, i, j);
      var l :| l in a.labelSets[i] && EqIgnoreCase(l, j);
      HasLabelFolds(cfg.base, l, j);
      assert EqIgnoreCase(j, l) && HasLabel(job, l);
    }
  }

  lemma PicksIffApplies(a: Agent, cfg: Config, job: seq<string>, i: nat)
    requires cfg.Valid() && Knows(a, cfg)
    ensures a.Picks(i, |cfg.mappings|, job) <==> Applies(cfg.base, cfg.mappings, job, i)
  {
    if i < |cfg.mappings| {
      CoversIffCovered(a, cfg, i, job);
      AsksIffRequests(a, cfg, i, job);
    }
  }

  lemma LabelsAgree(a: Agent, cfg: Config, job: seq<string>)
    requires cfg.Valid() && Knows(a, cfg) && cfg.flagsDefault
    ensures SelectMapping(cfg.base, cfg.mappings, job) ==
            if a.SelectedByLabels(job) == Some(|cfg.mappings|) then None else a.SelectedByLabels(job)
  {
    forall i: nat ensures a.Picks(i, |cfg.mappings|, job) <==> Applies(cfg.base, cfg.mappings, job, i) {
      PicksIffApplies(a, cfg, job, i);
    }
  }

  lemma NoSetMeansNoneCovers(a: Agent, cfg: Config, setId: string, job: seq<string>)
    requires cfg.Valid() && Knows(a, cfg) && cfg.flagsDefault
    ensures a.SelectedSet(job, setId) == None ==>
              forall i :: 0 <= i < |a.labelSets| ==> !SetCovers(a.labelSets[i], job)
  {
    DefaultCoversBase(a, cfg);
    MatchesIffSetSelected(a, job);
  }

  /** The agent picks mapping k exactly when the coordinator selects set k, and its default resource exactly when the
      coordinator selects the default set or no set covers the job. */
  lemma AgentAndCoordinatorAgree(a: Agent, cfg: Config, setId: string, job: seq<string>)
    requires cfg.Valid() && Knows(a, cfg) && cfg.flagsDefault
    ensures forall k :: 0 <= k < |cfg.mappings| ==>
              (MappingFor(cfg.base, cfg.baseId, cfg.mappings, setId, job) == Some(k) <==>
               a.SelectedSet(job, setId) == Some(k))
    ensures MappingFor(cfg.base, cfg.baseId, cfg.mappings, setId, job) == None <==>
              a.SelectedSet(job, setId) in {Some(|cfg.mappings|), None}
    ensures a.SelectedSet(job, setId) == None ==>
              forall i :: 0 <= i < |a.labelSets| ==> !SetCovers(a.labelSets[i], job)
  {
    assert a.capacity.labelSetIds == Ids(cfg.mappings) + [cfg.baseId];
    IndexOfAppended(Ids(cfg.mappings), cfg.baseId, setId);
    LabelsAgree(a, cfg, job);
    NoSetMeansNoneCovers(a, cfg, setId, job);
  }

  lemma DefaultCoversBase(a: Agent, cfg: Config)
    requires cfg.Valid() && Knows(a, cfg) && cfg.flagsDefault
    ensures DefaultIsBase(a)
  {
    forall l | l in a.labels ensures HasLabel(a.labelSets[|cfg.mappings|], l) {
      AdvertisedSetHas(a, cfg, |cfg.mappings|, l);
    }
  }

  /** A job the coordinator may send: it matches the agent, or names one of its sets. */
  predicate Routable(a: Agent, job: seq<string>, setId: string) {
    a.MatchesLabels(job) || (setId != "" && setId in a.capacity.labelSetIds)
  }

  /** Whatever the agent is told to create, the reservation is charged with every limit the VM will use. */
  lemma ReservationCoversUse(a: Agent, cfg: Config, setId: string, job: seq<string>, limitName: string)
    requires cfg.Valid() && Knows(a, cfg) && Routable(a, job, setId) && a.LimitsPerSet()
    requires limitName in cfg.setLimits[cfg.UsedSet(job, setId)]
    ensures a.Counts(job, setId, limitName)
  {
    assert a.capacity.labelSetIds == Ids(cfg.mappings) + [cfg.baseId];
    IndexOfAppended(Ids(cfg.mappings), cfg.baseId, setId);
    if cfg.flagsDefault {
      AgentAndCoordinatorAgree(a, cfg, setId, job);
    } else if a.SelectedSet(job, setId).None? {
      UsedSetCovers(a, cfg, setId, job);
      assert a.CoveringSetUses(cfg.UsedSet(job, setId), job, limitName);
    }
  }

  /** Without a known id, the agent's own choice covers any job that some advertised set covers. */
  lemma UsedSetCovers(a: Agent, cfg: Config, setId: string, job: seq<string>)
    requires cfg.Valid() && Knows(a, cfg) && a.MatchesLabels(job)
    requires setId == "" || setId !in a.capacity.labelSetIds
    ensures SetCovers(a.labelSets[cfg.UsedSet(job, setId)], job)
  {
    assert a.capacity.labelSetIds == Ids(cfg.mappings) + [cfg.baseId];
    IndexOfAppended(Ids(cfg.mappings), cfg.baseId, setId);
    var flagged := cfg.(flagsDefault := true);
    var b := a.(capacity := a.capacity.(defaultSet := Some(|cfg.mappings|)));
    assert Knows(b, flagged) by {
      var sets, more := cfg.LabelSets(), flagged.LabelSets();
      assert forall i :: 0 <= i < |sets| ==> sets[i].labels == more[i].labels && sets[i].id == more[i].id;
    }
    AgentAndCoordinatorAgree(b, flagged, setId, job);
    DefaultCoversBase(b, flagged);
    MatchesIffSetSelected(b, job);
    assert b.SelectedSet(job, setId) == b.SelectedByLabels(job) == b.SelectedSet(job, "");
  }
}
