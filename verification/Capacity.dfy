/**
 What the coordinator knows about one connected agent, and how many more runners it may be given
 (kuiper-forge/src/agent_registry.rs, `ConnectedAgent`). `Agent` is the value of that object's fields; the class
 in Registry.dfy updates them.
 */
module Capacity {
  import opened Common
  import opened Text
  import opened Labels

  datatype VmLimit = VmLimit(name: string, max: nat, external: nat, active: nat)

  datatype LabelSet = LabelSet(labels: seq<string>, limits: seq<string>, pool: Option<nat>, id: string, isDefault: bool)

  /** The message an agent sends about itself. */
  datatype Status = Status(activeVms: nat, maxVms: nat, labels: seq<string>, labelSets: seq<LabelSet>,
                           limits: seq<VmLimit>, vms: seq<string>)

  datatype AgentCapacity = AgentCapacity(limits: seq<VmLimit>, labelSetLimits: seq<seq<string>>,
                                         labelSetPools: seq<Option<nat>>, labelSetIds: seq<string>,
                                         defaultSet: Option<nat>)

  function CapacityOf(status: Status): AgentCapacity {
    var sets := status.labelSets;
    AgentCapacity(
      status.limits,
      seq(|sets|, i requires 0 <= i < |sets| => sets[i].limits),
      seq(|sets|, i requires 0 <= i < |sets| => sets[i].pool),
      seq(|sets|, i requires 0 <= i < |sets| => sets[i].id),
      FirstIndex(|sets|, (i: nat) => i < |sets| && sets[i].isDefault))
  }

  datatype Reservation = Reservation(limits: seq<string>, at: nat)

  predicate SetCovers(set_: seq<string>, required: seq<string>) {
    forall r :: r in required ==> HasLabel(set_, r)
  }

  datatype Agent = Agent(
    maxVms: nat,
    activeVms: nat,
    capacity: AgentCapacity,
    labels: seq<string>,
    labelSets: seq<seq<string>>,
    reservations: map<string, Reservation>,
    unavailable: bool)
  {
    predicate LimitsPerSet() {
      exists names :: names in capacity.labelSetLimits && names != []
    }

    function LimitActive(limit: VmLimit): nat {
      if LimitsPerSet() then limit.active else activeVms
    }

    /** The set adds a label to the base labels, and the job asks for it. */
    predicate AsksForExtra(set_: seq<string>, job: seq<string>) {
      exists l :: l in set_ && !HasLabel(labels, l) && HasLabel(job, l)
    }

    predicate Picks(i: nat, defaultSet: nat, job: seq<string>) {
      i < |labelSets| && i != defaultSet && AsksForExtra(labelSets[i], job) && SetCovers(labelSets[i], job)
    }

    function SelectedByLabels(job: seq<string>): (r: Option<nat>)
      ensures r.Some? ==> capacity.defaultSet.Some? && r.value < |labelSets| && SetCovers(labelSets[r.value], job)
      ensures r.Some? && r != capacity.defaultSet ==> Picks(r.value, capacity.defaultSet.value, job)
      ensures capacity.defaultSet.Some? ==>
                forall j: nat :: (r.None? || r == capacity.defaultSet || j < r.value) ==>
                                   !Picks(j, capacity.defaultSet.value, job)
      ensures r.None? && capacity.defaultSet.Some? && capacity.defaultSet.value < |labelSets| ==>
                !SetCovers(labelSets[capacity.defaultSet.value], job)
    {
      match capacity.defaultSet
      case None => None
      case Some(d) =>
        var picks := (i: nat) => Picks(i, d, job);
        assert forall j: nat :: picks(j) == Picks(j, d, job);
        match FirstIndex(|labelSets|, picks)
        case Some(i) => Some(i)
        case None => if d < |labelSets| && SetCovers(labelSets[d], job) then Some(d) else None
    }

    /** Index of the label set a runner for this job is created from, if that can be told. */
    function SelectedSet(job: seq<string>, setId: string): Option<nat> {
      match IndexOf(capacity.labelSetIds, setId)
      case Some(i) => if setId == "" then SelectedByLabels(job) else Some(i)
      case None => SelectedByLabels(job)
    }

    predicate CoveringSetUses(i: nat, job: seq<string>, limitName: string) {
      && i < |labelSets| && i < |capacity.labelSetLimits|
      && SetCovers(labelSets[i], job) && limitName in capacity.labelSetLimits[i]
    }

    /** A runner for this job counts against the limit. */
    predicate Counts(job: seq<string>, setId: string, limitName: string) {
      LimitsPerSet() ==>
        match SelectedSet(job, setId)
        case Some(i) => i < |capacity.labelSetLimits| && limitName in capacity.labelSetLimits[i]
        case None => exists i: nat | i < |labelSets| :: CoveringSetUses(i, job, limitName)
    }

    function LimitsFor(job: seq<string>, setId: string): seq<VmLimit> {
      Filter(capacity.limits, (l: VmLimit) => Counts(job, setId, l.name))
    }

    function ReservedSlots(): nat { |reservations| }

    function LimitReserved(limitName: string): nat {
      if LimitsPerSet() then |set n | n in reservations && limitName in reservations[n].limits|
      else ReservedSlots()
    }

    function Room(limit: VmLimit): nat {
      Sub(limit.max, limit.external + LimitActive(limit) + LimitReserved(limit.name))
    }

    /** Runners for this job that can still be created. */
    function AvailableCapacity(job: seq<string>, setId: string): nat {
      if unavailable then 0
      else
        var counted := LimitsFor(job, setId);
        MinFold(Sub(maxVms, activeVms + ReservedSlots()),
                seq(|counted|, i requires 0 <= i < |counted| => Room(counted[i])))
    }

    predicate HasCapacity(job: seq<string>, setId: string) {
      AvailableCapacity(job, setId) > 0
    }

    /** Most runners for this job at once, with nothing else of the agent's own running. */
    function CeilingFor(job: seq<string>): nat {
      var counted := LimitsFor(job, "");
      MinFold(maxVms, seq(|counted|, i requires 0 <= i < |counted| => Sub(counted[i].max, counted[i].external)))
    }

    predicate CountsAlways(limitName: string) {
      LimitsPerSet() ==> forall names :: names in capacity.labelSetLimits ==> limitName in names
    }

    function EffectiveMax(): nat {
      var counted := Filter(capacity.limits, (l: VmLimit) => CountsAlways(l.name));
      MinFold(maxVms, seq(|counted|, i requires 0 <= i < |counted| => Sub(counted[i].max, counted[i].external)))
    }

    predicate MatchesLabels(required: seq<string>) {
      if labelSets != [] then exists s :: s in labelSets && SetCovers(s, required)
      else SetCovers(labels, required)
    }

    function ReservedLimitNames(job: seq<string>, setId: string): seq<string> {
      if LimitsPerSet() then
        var counted := LimitsFor(job, setId);
        seq(|counted|, i requires 0 <= i < |counted| => counted[i].name)
      else []
    }

    /** The agent after a reservation for `runner`: unchanged when there is no room. */
    function Reserve(job: seq<string>, setId: string, runner: string, now: nat): Agent {
      if HasCapacity(job, setId)
      then this.(reservations := reservations[runner := Reservation(ReservedLimitNames(job, setId), now)])
      else this
    }

    function Release(runner: string): Agent {
      this.(reservations := reservations - {runner})
    }

    function WithCapacity(c: AgentCapacity): Agent {
      this.(capacity := c)
    }

    function WithStatus(status: Status): Agent {
      this.(activeVms := status.activeVms, maxVms := status.maxVms, labels := status.labels,
            labelSets := seq(|status.labelSets|, i requires 0 <= i < |status.labelSets| => status.labelSets[i].labels))
    }

    function Settle(vms: seq<string>): Agent {
      this.(reservations := map n | n in reservations && n !in vms :: reservations[n])
    }

    /** Without the reservations at least `minAge` old whose runner has no record. */
    function Reconcile(recorded: seq<string>, minAge: nat, now: nat): Agent {
      this.(reservations :=
        map n | n in reservations && !(Sub(now, reservations[n].at) >= minAge && n !in recorded) :: reservations[n])
    }
  }

  /** A slot is given out exactly when every limit the runner counts against has one left. */
  lemma HasCapacityMeansRoomEverywhere(a: Agent, job: seq<string>, setId: string)
    ensures a.HasCapacity(job, setId) <==>
            && !a.unavailable
            && a.activeVms + a.ReservedSlots() < a.maxVms
            && forall l :: l in a.capacity.limits && a.Counts(job, setId, l.name) ==>
                 l.external + a.LimitActive(l) + a.LimitReserved(l.name) < l.max
  {
    var counted := a.LimitsFor(job, setId);
    var rooms := seq(|counted|, i requires 0 <= i < |counted| => a.Room(counted[i]));
    assert forall i :: 0 <= i < |counted| ==> rooms[i] == a.Room(counted[i]) && rooms[i] in rooms;
    if a.HasCapacity(job, setId) {
      forall l | l in a.capacity.limits && a.Counts(job, setId, l.name) ensures a.Room(l) > 0 {
        var i :| 0 <= i < |counted| && counted[i] == l;
        assert rooms[i] in rooms;
      }
    } else if !a.unavailable && MinFold(Sub(a.maxVms, a.activeVms + a.ReservedSlots()), rooms) in rooms {
      var i :| 0 <= i < |rooms| && rooms[i] == 0;
      assert counted[i] in counted;
    }
  }

  /** A status and the settling after it count each VM once, as running or as reserved, exactly if the status's count is
      that of the VMs it lists. The agent reads the two one after the other, so they can differ by the VMs that came or
      went in between, and then the accounts are off by just that. */
  lemma StatusThenSettleCountsOnceIff(a: Agent, status: Status)
    ensures var after := a.WithStatus(status).Settle(status.vms);
            var listed := set v | v in status.vms;
            && after.activeVms + after.ReservedSlots() + |listed| == |listed + a.reservations.Keys| + status.activeVms
            && (after.activeVms + after.ReservedSlots() == |listed + a.reservations.Keys|
                <==> status.activeVms == |listed|)
  {
    var vms := set v | v in status.vms;
    var after := a.WithStatus(status).Settle(status.vms);
    assert after.reservations.Keys == a.reservations.Keys - vms;
    assert vms + a.reservations.Keys == vms + (a.reservations.Keys - vms);
  }

  /** The default set is the base labels, as every agent that flags one advertises it. */
  predicate DefaultIsBase(a: Agent) {
    && a.capacity.defaultSet.Some? && a.capacity.defaultSet.value < |a.labelSets|
    && forall l :: l in a.labels ==> HasLabel(a.labelSets[a.capacity.defaultSet.value], l)
  }

  lemma HasLabelFolds(labels: seq<string>, l: string, m: string)
    requires EqIgnoreCase(l, m)
    ensures HasLabel(labels, l) <==> HasLabel(labels, m)
  {
  }

  /** The labels a job is routed by and the set its runner comes from agree: a job matches the agent exactly when some
      set is selected for it. */
  lemma MatchesIffSetSelected(a: Agent, job: seq<string>)
    requires DefaultIsBase(a)
    ensures a.MatchesLabels(job) <==> a.SelectedSet(job, "").Some?
  {
    var d := a.capacity.defaultSet.value;
    if a.MatchesLabels(job) {
      var i: nat :| i < |a.labelSets| && SetCovers(a.labelSets[i], job);
      if i != d && !a.AsksForExtra(a.labelSets[i], job) {
        forall j | j in job ensures HasLabel(a.labelSets[d], j) {
          var l :| l in a.labelSets[i] && EqIgnoreCase(l, j);
          assert EqIgnoreCase(j, l) && HasLabel(job, l);
          var b :| b in a.labels && EqIgnoreCase(b, l);
          assert HasLabel(a.labelSets[d], b);
        }
      }
      assert i != d && a.AsksForExtra(a.labelSets[i], job) ==> a.Picks(i, d, job);
    }
    if a.SelectedSet(job, "").Some? {
      assert a.labelSets[a.SelectedSet(job, "").value] in a.labelSets;
    }
  }

  lemma MinFoldMonotone(s: nat, xs: seq<nat>, t: nat, ys: seq<nat>)
    requires s <= t
    requires forall y :: y in ys ==> s <= y || exists x :: x in xs && x <= y
    ensures MinFold(s, xs) <= MinFold(t, ys)
  {
  }

  /** For every agent and job, free slots are within the most at once, and that and the overall maximum within
      `max_vms`. */
  lemma AvailableWithinCeiling(a: Agent, job: seq<string>)
    ensures a.AvailableCapacity(job, "") <= a.CeilingFor(job) <= a.maxVms && a.EffectiveMax() <= a.maxVms
  {
    var counted := a.LimitsFor(job, "");
    var rooms := seq(|counted|, i requires 0 <= i < |counted| => a.Room(counted[i]));
    var tops := seq(|counted|, i requires 0 <= i < |counted| => Sub(counted[i].max, counted[i].external));
    forall t | t in tops ensures exists r :: r in rooms && r <= t {
      var i :| 0 <= i < |tops| && tops[i] == t;
      assert rooms[i] in rooms;
    }
    MinFoldMonotone(Sub(a.maxVms, a.activeVms + a.ReservedSlots()), rooms, a.maxVms, tops);
  }

  /** A set that the job may be run from has its limits known: so once the status that brought them is applied, for
      every job the agent matches. Between `set_capacity` and `update_status` sets and limits can differ in number. */
  predicate LimitsKnown(a: Agent, job: seq<string>) {
    a.LimitsPerSet() ==>
      exists i: nat :: i < |a.capacity.labelSetLimits| &&
        if a.SelectedSet(job, "").Some? then i == a.SelectedSet(job, "").value
        else i < |a.labelSets| && SetCovers(a.labelSets[i], job)
  }

  lemma MatchedLimitsKnown(a: Agent, job: seq<string>)
    requires |a.capacity.labelSetLimits| == |a.labelSets| && a.MatchesLabels(job)
    ensures LimitsKnown(a, job)
  {
    if a.LimitsPerSet() {
      assert a.labelSets != [];
      var i: nat :| i < |a.labelSets| && SetCovers(a.labelSets[i], job);
      assert a.SelectedSet(job, "").Some? ==> a.SelectedSet(job, "").value < |a.labelSets|;
      var k := if a.SelectedSet(job, "").Some? then a.SelectedSet(job, "").value else i;
      assert k < |a.capacity.labelSetLimits|;
    }
  }

  /** Then the figures shown for an agent never contradict each other. */
  lemma CapacityOrdering(a: Agent, job: seq<string>)
    requires LimitsKnown(a, job)
    ensures a.AvailableCapacity(job, "") <= a.CeilingFor(job) <= a.EffectiveMax() <= a.maxVms
  {
    AvailableWithinCeiling(a, job);
    var counted := a.LimitsFor(job, "");
    var tops := seq(|counted|, i requires 0 <= i < |counted| => Sub(counted[i].max, counted[i].external));
    var always := Filter(a.capacity.limits, (l: VmLimit) => a.CountsAlways(l.name));
    var caps := seq(|always|, i requires 0 <= i < |always| => Sub(always[i].max, always[i].external));
    forall c | c in caps ensures exists t :: t in tops && t <= c {
      var i :| 0 <= i < |caps| && caps[i] == c;
      assert always[i] in always;
      AlwaysCounts(a, job, always[i].name);
      assert always[i] in counted;
      var k :| 0 <= k < |counted| && counted[k] == always[i];
      assert tops[k] in tops;
    }
    MinFoldMonotone(a.maxVms, tops, a.maxVms, caps);
  }

  lemma AlwaysCounts(a: Agent, job: seq<string>, limitName: string)
    requires LimitsKnown(a, job) && a.CountsAlways(limitName)
    ensures a.Counts(job, "", limitName)
  {
    if a.LimitsPerSet() {
      var i: nat :| i < |a.capacity.labelSetLimits| &&
        if a.SelectedSet(job, "").Some? then i == a.SelectedSet(job, "").value
        else i < |a.labelSets| && SetCovers(a.labelSets[i], job);
      assert a.capacity.labelSetLimits[i] in a.capacity.labelSetLimits;
      if a.SelectedSet(job, "").None? {
        assert a.CoveringSetUses(i, job, limitName);
      }
    }
  }

  function SetLimits(a: Agent, i: nat): seq<string> {
    if i < |a.capacity.labelSetLimits| then a.capacity.labelSetLimits[i] else []
  }

  /** Free slots if only label set `i` were in question. */
  function RoomInSet(a: Agent, i: nat): nat {
    var counted := Filter(a.capacity.limits, (l: VmLimit) => l.name in SetLimits(a, i));
    MinFold(Sub(a.maxVms, a.activeVms + a.ReservedSlots()),
            seq(|counted|, k requires 0 <= k < |counted| => a.Room(counted[k])))
  }

  predicate DefaultUnknown(a: Agent) {
    a.LimitsPerSet() && a.capacity.defaultSet.None? && !a.unavailable
  }

  /** When an agent doesn't flag its default set, a job is given what the sets it matches all have room for, and no
      less. */
  lemma UnknownDefaultTakesTheLeast(a: Agent, job: seq<string>)
    requires DefaultUnknown(a) && a.labelSets != [] && a.MatchesLabels(job)
    ensures forall i :: 0 <= i < |a.labelSets| && SetCovers(a.labelSets[i], job) ==>
                          a.AvailableCapacity(job, "") <= RoomInSet(a, i)
    ensures exists i :: 0 <= i < |a.labelSets| && SetCovers(a.labelSets[i], job) &&
                        a.AvailableCapacity(job, "") == RoomInSet(a, i)
  {
    forall i | 0 <= i < |a.labelSets| && SetCovers(a.labelSets[i], job)
      ensures a.AvailableCapacity(job, "") <= RoomInSet(a, i)
    {
      NoMoreThanInSet(a, job, i);
    }
    var i := SomeSetHasNoMore(a, job);
  }

  lemma NoMoreThanInSet(a: Agent, job: seq<string>, i: nat)
    requires DefaultUnknown(a) && i < |a.labelSets| && SetCovers(a.labelSets[i], job)
    ensures a.AvailableCapacity(job, "") <= RoomInSet(a, i)
  {
    var start := Sub(a.maxVms, a.activeVms + a.ReservedSlots());
    var counted := a.LimitsFor(job, "");
    var rooms := seq(|counted|, k requires 0 <= k < |counted| => a.Room(counted[k]));
    var mine := Filter(a.capacity.limits, (l: VmLimit) => l.name in SetLimits(a, i));
    var myRooms := seq(|mine|, k requires 0 <= k < |mine| => a.Room(mine[k]));
    forall r | r in myRooms ensures exists x :: x in rooms && x <= r {
      var k :| 0 <= k < |mine| && myRooms[k] == r;
      assert mine[k] in mine;
      assert a.CoveringSetUses(i, job, mine[k].name);
      var m :| 0 <= m < |counted| && counted[m] == mine[k];
      assert rooms[m] in rooms;
    }
    MinFoldMonotone(start, rooms, start, myRooms);
  }

  lemma SomeSetHasNoMore(a: Agent, job: seq<string>) returns (i: nat)
    requires DefaultUnknown(a) && a.labelSets != [] && a.MatchesLabels(job)
    ensures i < |a.labelSets| && SetCovers(a.labelSets[i], job) && RoomInSet(a, i) == a.AvailableCapacity(job, "")
  {
    var start := Sub(a.maxVms, a.activeVms + a.ReservedSlots());
    var counted := a.LimitsFor(job, "");
    var rooms := seq(|counted|, k requires 0 <= k < |counted| => a.Room(counted[k]));
    var least := a.AvailableCapacity(job, "");
    if least == start {
      i :| i < |a.labelSets| && SetCovers(a.labelSets[i], job);
    } else {
      var m :| 0 <= m < |rooms| && rooms[m] == least;
      assert counted[m] in counted;
      i :| i < |a.labelSets| && a.CoveringSetUses(i, job, counted[m].name);
      var mine := Filter(a.capacity.limits, (l: VmLimit) => l.name in SetLimits(a, i));
      var k :| 0 <= k < |mine| && mine[k] == counted[m];
      var myRooms := seq(|mine|, k requires 0 <= k < |mine| => a.Room(mine[k]));
      assert myRooms[k] in myRooms;
    }
    NoMoreThanInSet(a, job, i);
  }
}
