/**
 No over-commitment over whole runs: the coordinator's accounting (reservations, and the counts in the agent's latest
 status) and the agent's own check, against the VMs that really run on the host. Statuses travel in order, each a
 snapshot of the agent's VMs, and are applied in three separate steps, between which runners may be reserved, started,
 stopped and released. The host's configuration stays fixed and runner names are fresh.
 */
module Overcommit {
  import opened Common
  import opened Labels
  import opened Capacity
  import opened Agreement

  datatype HostLimit = HostLimit(name: string, max: nat, external: nat)

  datatype Host = Host(cfg: Config, maxVms: nat, limits: seq<HostLimit>) {
    predicate Valid() { cfg.Valid() }

    /** Agents older than per-set limits name none, and every VM counts against every limit. */
    predicate PerSet() {
      exists names :: names in cfg.setLimits && names != []
    }

    predicate CountsAgainst(order: Order, limitName: string)
      requires Valid()
    {
      PerSet() ==> limitName in cfg.setLimits[cfg.UsedSet(order.labels, order.setId)]
    }
  }

  /** What a runner was asked to be created from. */
  datatype Order = Order(labels: seq<string>, setId: string)

  function Elements(xs: seq<string>): set<string> { set x | x in xs }

  /** The VMs among `vms` that the agent counts against a limit. */
  function Using(host: Host, orders: map<string, Order>, vms: set<string>, limitName: string): (r: set<string>)
    requires host.Valid()
    ensures r <= vms
  {
    set v | v in vms && v in orders && host.CountsAgainst(orders[v], limitName)
  }

  function StatusOf(host: Host, orders: map<string, Order>, vms: seq<string>): Status
    requires host.Valid()
  {
    Status(|vms|, host.maxVms, host.cfg.base, host.cfg.LabelSets(),
           seq(|host.limits|, k requires 0 <= k < |host.limits| =>
             VmLimit(host.limits[k].name, host.limits[k].max, host.limits[k].external,
                     if host.PerSet() then |Using(host, orders, Elements(vms), host.limits[k].name)| else 0)),
           vms)
  }

  datatype Phase = Waiting | CapacitySet | StatusSet

  datatype World = World(
    host: Host,
    coord: Agent,
    orders: map<string, Order>,
    running: set<string>,
    started: set<string>,
    /** Statuses on their way, oldest first, each as the VMs it lists */
    reports: seq<seq<string>>,
    phase: Phase,
    /** The statuses that the coordinator's limits and its VM count come from */
    limitsFrom: seq<string>,
    countFrom: seq<string>)
  {
    function Held(): set<string> { coord.reservations.Keys }
  }

  datatype Event =
    | Reserve(labels: seq<string>, setId: string, runner: string, now: nat)
    | Release(runner: string)
    | Start(runner: string)
    | Stop(runner: string)
    | Report(vms: seq<string>)
    | ApplyCapacity
    | ApplyStatus
    | Settle
    | SetUnavailable(unavailable: bool)

  predicate CountsSome(host: Host, order: Order)
    requires host.Valid()
  {
    exists k :: 0 <= k < |host.limits| && host.CountsAgainst(order, host.limits[k].name)
  }

  /** `Tracker::reserve`: before it takes a slot, the agent counts its own VMs and others' on the host against each
      limit that the new one counts against. Without any it has no slot. */
  predicate AgentAccepts(w: World, runner: string)
    requires w.host.Valid() && runner in w.orders
  {
    && CountsSome(w.host, w.orders[runner])
    && (forall k :: 0 <= k < |w.host.limits| && w.host.CountsAgainst(w.orders[runner], w.host.limits[k].name) ==>
          FreeSlots(w, k) > 0)
  }

  /** What the agent has left of a limit. */
  function FreeSlots(w: World, k: nat): nat
    requires w.host.Valid() && k < |w.host.limits|
  {
    var limit := w.host.limits[k];
    Sub(limit.max, |Using(w.host, w.orders, w.running, limit.name)| + limit.external)
  }

  predicate Enabled(w: World, e: Event)
    requires w.host.Valid()
  {
    match e
    case Reserve(labels, setId, runner, _) => runner !in w.orders && Routable(w.coord, labels, setId)
    case Release(_) => true
    case Start(runner) => runner in w.orders && runner !in w.started && AgentAccepts(w, runner)
    case Stop(runner) => runner in w.running
    case Report(vms) => NoDuplicates(vms) && Elements(vms) == w.running
    case ApplyCapacity => w.reports != [] && w.phase == Waiting
    case ApplyStatus => w.phase == CapacitySet && w.reports != []
    case Settle => w.phase == StatusSet && w.reports != []
    case SetUnavailable(_) => true
  }

  /** The coordinator only releases the slot of a runner whose VM doesn't run, and a VM only starts while its slot is
      held. A command that times out after it was sent breaks this: its slot is released, and it may still be carried
      out. */
  predicate Timely(w: World, e: Event) {
    match e
    case Release(runner) => runner !in w.running
    case Start(runner) => runner in w.Held()
    case _ => true
  }

  function Next(w: World, e: Event): (r: World)
    requires w.host.Valid() && Enabled(w, e)
    ensures r.host == w.host
  {
    match e
    case Reserve(labels, setId, runner, now) =>
      if !w.coord.HasCapacity(labels, setId) then w
      else
        w.(coord := w.coord.Reserve(labels, setId, runner, now), orders := w.orders[runner := Order(labels, setId)])
    case Release(runner) => w.(coord := w.coord.Release(runner))
    case Start(runner) => w.(running := w.running + {runner}, started := w.started + {runner})
    case Stop(runner) => w.(running := w.running - {runner})
    case Report(vms) => w.(reports := w.reports + [vms])
    case ApplyCapacity =>
      w.(coord := w.coord.WithCapacity(CapacityOf(StatusOf(w.host, w.orders, w.reports[0]))),
         limitsFrom := w.reports[0], phase := CapacitySet)
    case ApplyStatus =>
      w.(coord := w.coord.WithStatus(StatusOf(w.host, w.orders, w.reports[0])),
         countFrom := w.reports[0], phase := StatusSet)
    case Settle =>
      w.(coord := w.coord.Settle(w.reports[0]), reports := w.reports[1..], phase := Waiting)
    case SetUnavailable(u) => w.(coord := w.coord.(unavailable := u))
  }

  /** The agent just connected: its first status is applied and nothing is reserved. */
  predicate Init(w: World) {
    && w.host.Valid()
    && NoDuplicates(w.countFrom) && Elements(w.countFrom) == w.running == w.started
    && w.limitsFrom == w.countFrom && w.reports == [] && w.phase == Waiting
    && w.running <= w.orders.Keys
    && w.coord.reservations == map[]
    && (var status := StatusOf(w.host, w.orders, w.countFrom);
        w.coord == Agent(0, 0, CapacityOf(status), [], [], map[], w.coord.unavailable).WithStatus(status))
    && Safe(w)
  }

  /** Running VMs and reservations together fit the host, and every limit after what others use of it. */
  predicate Safe(w: World) {
    && w.host.Valid()
    && |w.running + w.Held()| <= w.host.maxVms
    && forall k :: 0 <= k < |w.host.limits| ==>
         |Using(w.host, w.orders, w.running + w.Held(), w.host.limits[k].name)|
           <= Sub(w.host.limits[k].max, w.host.limits[k].external)
  }

  /** Every list of VMs the coordinator uses or will use, oldest first. */
  function Lists(w: World): seq<seq<string>> { [w.countFrom, w.limitsFrom] + w.reports }

  /** The coordinator's record is that of a status listing `limitsFrom` and one listing `countFrom`. */
  predicate RecordIsFrom(w: World)
    requires w.host.Valid()
  {
    && Knows(w.coord, w.host.cfg)
    && w.coord.maxVms == w.host.maxVms
    && w.coord.activeVms == |w.countFrom|
    && w.coord.capacity.limits == StatusOf(w.host, w.orders, w.limitsFrom).limits
  }

  /** A running VM is reserved or in every list, and once in a list it's in every later one. */
  predicate Accounted(w: World) {
    && (forall v, i :: v in w.running && 0 <= i < |Lists(w)| ==> v in w.Held() || v in Lists(w)[i])
    && (forall v, i, j :: v in w.running && 0 <= i < j < |Lists(w)| && v in Lists(w)[i] ==> v in Lists(w)[j])
  }

  /** A reservation is charged with every limit that its VM will use. */
  predicate Charged(w: World)
    requires w.host.Valid()
  {
    && w.Held() <= w.orders.Keys
    && (forall n, k :: n in w.Held() && 0 <= k < |w.host.limits| && w.host.PerSet()
                       && w.host.CountsAgainst(w.orders[n], w.host.limits[k].name)
                       ==> w.host.limits[k].name in w.coord.reservations[n].limits)
  }

  predicate Bookkeeping(w: World) {
    && w.running <= w.started <= w.orders.Keys
    && (forall i :: 0 <= i < |Lists(w)| ==> NoDuplicates(Lists(w)[i]) && Elements(Lists(w)[i]) <= w.started)
    && (w.phase != Waiting ==> w.reports != [] && w.limitsFrom == w.reports[0])
    && (w.phase == StatusSet ==> w.countFrom == w.reports[0])
  }

  predicate Inv(w: World) {
    Safe(w) && RecordIsFrom(w) && Accounted(w) && Charged(w) && Bookkeeping(w)
  }

  lemma InitInv(w: World)
    requires Init(w)
    ensures Inv(w)
  {
    var status := StatusOf(w.host, w.orders, w.countFrom);
    StatusIsKnown(Agent(0, 0, CapacityOf(status), [], [], map[], w.coord.unavailable), w.host.cfg, status);
    StatusIsKnown(w.coord, w.host.cfg, status);
  }

  lemma NextInv(w: World, e: Event)
    requires Inv(w) && Enabled(w, e) && Timely(w, e)
    ensures Inv(Next(w, e))
  {
    var w' := Next(w, e);
    match e
    case Reserve(labels, setId, runner, now) => ReserveInv(w, labels, setId, runner, now);
    case Release(runner) =>
      assert Lists(w') == Lists(w);
      FewerInUse(w, w');
    case Start(runner) =>
      assert Lists(w') == Lists(w);
      assert w'.running + w'.Held() == w.running + w.Held();
    case Stop(runner) =>
      assert Lists(w') == Lists(w);
      FewerInUse(w, w');
    case Report(vms) => ReportInv(w, vms);
    case ApplyCapacity => ApplyCapacityInv(w);
    case ApplyStatus => ApplyStatusInv(w);
    case Settle => SettleInv(w);
    case SetUnavailable(_) => assert Lists(w') == Lists(w);
  }

  /** Nothing new is in use, so nothing new is exceeded. */
  lemma FewerInUse(w: World, w': World)
    requires Safe(w) && w'.host == w.host && w'.orders == w.orders
    requires w'.running + w'.Held() <= w.running + w.Held()
    ensures Safe(w')
  {
    SubsetSize(w'.running + w'.Held(), w.running + w.Held());
    forall k | 0 <= k < |w.host.limits|
      ensures |Using(w.host, w.orders, w'.running + w'.Held(), w.host.limits[k].name)|
              <= Sub(w.host.limits[k].max, w.host.limits[k].external)
    {
      SubsetSize(Using(w.host, w.orders, w'.running + w'.Held(), w.host.limits[k].name),
                 Using(w.host, w.orders, w.running + w.Held(), w.host.limits[k].name));
    }
  }

  lemma ReserveInv(w: World, labels: seq<string>, setId: string, runner: string, now: nat)
    requires Inv(w) && Enabled(w, Reserve(labels, setId, runner, now))
    ensures Inv(Next(w, Reserve(labels, setId, runner, now)))
  {
    if w.coord.HasCapacity(labels, setId) {
      assert Lists(Next(w, Reserve(labels, setId, runner, now))) == Lists(w);
      ReserveKeepsRecord(w, labels, setId, runner, now);
      ReserveCharges(w, labels, setId, runner, now);
      ReserveSafe(w, labels, setId, runner, now);
    }
  }

  lemma ReserveKeepsRecord(w: World, labels: seq<string>, setId: string, runner: string, now: nat)
    requires Inv(w) && Enabled(w, Reserve(labels, setId, runner, now)) && w.coord.HasCapacity(labels, setId)
    ensures RecordIsFrom(Next(w, Reserve(labels, setId, runner, now)))
  {
    var w' := Next(w, Reserve(labels, setId, runner, now));
    assert Lists(w)[1] == w.limitsFrom;
    forall name
      ensures Using(w.host, w'.orders, Elements(w.limitsFrom), name)
              == Using(w.host, w.orders, Elements(w.limitsFrom), name)
    {
    }
    assert StatusOf(w.host, w'.orders, w.limitsFrom).limits == StatusOf(w.host, w.orders, w.limitsFrom).limits;
  }

  lemma ReserveCharges(w: World, labels: seq<string>, setId: string, runner: string, now: nat)
    requires Inv(w) && Enabled(w, Reserve(labels, setId, runner, now)) && w.coord.HasCapacity(labels, setId)
    ensures Charged(Next(w, Reserve(labels, setId, runner, now)))
  {
    var w' := Next(w, Reserve(labels, setId, runner, now));
    forall k | 0 <= k < |w.host.limits| && w.host.PerSet()
               && w.host.CountsAgainst(Order(labels, setId), w.host.limits[k].name)
      ensures w.host.limits[k].name in w'.coord.reservations[runner].limits
    {
      var name := w.host.limits[k].name;
      ReservationCoversUse(w.coord, w.host.cfg, setId, labels, name);
      var counted := w.coord.LimitsFor(labels, setId);
      assert w.coord.capacity.limits[k] in counted;
      var i :| 0 <= i < |counted| && counted[i] == w.coord.capacity.limits[k];
      assert w.coord.ReservedLimitNames(labels, setId)[i] == name;
    }
  }

  lemma ReserveSafe(w: World, labels: seq<string>, setId: string, runner: string, now: nat)
    requires Inv(w) && Enabled(w, Reserve(labels, setId, runner, now)) && w.coord.HasCapacity(labels, setId)
    ensures Safe(Next(w, Reserve(labels, setId, runner, now)))
  {
    var w' := Next(w, Reserve(labels, setId, runner, now));
    HasCapacityMeansRoomEverywhere(w.coord, labels, setId);
    AllInUseBound(w);
    assert w'.running + w'.Held() == (w.running + w.Held()) + {runner};
    forall k | 0 <= k < |w.host.limits|
      ensures |Using(w.host, w'.orders, w'.running + w'.Held(), w.host.limits[k].name)|
              <= Sub(w.host.limits[k].max, w.host.limits[k].external)
    {
      LimitAfterReserve(w, Order(labels, setId), runner, k);
    }
  }

  lemma LimitAfterReserve(w: World, order: Order, runner: string, k: nat)
    requires Inv(w) && k < |w.host.limits|
    requires runner !in w.orders && Routable(w.coord, order.labels, order.setId)
    requires w.coord.HasCapacity(order.labels, order.setId)
    ensures |Using(w.host, w.orders[runner := order], (w.running + w.Held()) + {runner}, w.host.limits[k].name)|
            <= Sub(w.host.limits[k].max, w.host.limits[k].external)
  {
    var name, limit := w.host.limits[k].name, w.coord.capacity.limits[k];
    var before := Using(w.host, w.orders, w.running + w.Held(), name);
    var after := Using(w.host, w.orders[runner := order], (w.running + w.Held()) + {runner}, name);
    if w.host.CountsAgainst(order, name) {
      SubsetSize(after, before + {runner});
      InUseBound(w, k);
      if w.coord.LimitsPerSet() {
        ReservationCoversUse(w.coord, w.host.cfg, order.setId, order.labels, name);
      }
      HasCapacityMeansRoomEverywhere(w.coord, order.labels, order.setId);
      assert limit in w.coord.capacity.limits;
    } else {
      SubsetSize(after, before);
    }
  }

  lemma AllInUseBound(w: World)
    requires Inv(w)
    ensures |w.running + w.Held()| <= w.coord.activeVms + w.coord.ReservedSlots()
  {
    var counted := Elements(w.countFrom);
    assert Lists(w)[0] == w.countFrom;
    DistinctSize(w.countFrom);
    assert w.running + w.Held() <= counted + w.Held();
    SubsetSize(w.running + w.Held(), counted + w.Held());
  }

  /** What is really in use of a limit is at most what the coordinator counts. */
  lemma InUseBound(w: World, k: nat)
    requires Inv(w) && k < |w.host.limits|
    ensures |Using(w.host, w.orders, w.running + w.Held(), w.host.limits[k].name)|
            <= w.coord.LimitActive(w.coord.capacity.limits[k]) + w.coord.LimitReserved(w.host.limits[k].name)
  {
    var name := w.host.limits[k].name;
    var inUse := Using(w.host, w.orders, w.running + w.Held(), name);
    if w.host.PerSet() {
      var active := Using(w.host, w.orders, Elements(w.limitsFrom), name);
      var reserved := set n | n in w.coord.reservations && name in w.coord.reservations[n].limits;
      assert Lists(w)[1] == w.limitsFrom;
      assert inUse <= active + reserved;
      SubsetSize(inUse, active + reserved);
    } else {
      AllInUseBound(w);
      SubsetSize(inUse, w.running + w.Held());
    }
  }

  lemma ReportInv(w: World, vms: seq<string>)
    requires Inv(w) && Enabled(w, Report(vms))
    ensures Inv(Next(w, Report(vms)))
  {
    FewerInUse(w, Next(w, Report(vms)));
    ReportAccounted(w, vms);
  }

  lemma ReportAccounted(w: World, vms: seq<string>)
    requires Accounted(w) && Bookkeeping(w) && w.host.Valid() && Enabled(w, Report(vms))
    ensures Accounted(Next(w, Report(vms))) && Bookkeeping(Next(w, Report(vms)))
  {
    assert Lists(Next(w, Report(vms))) == Lists(w) + [vms];
  }

  lemma ApplyCapacityInv(w: World)
    requires Inv(w) && Enabled(w, ApplyCapacity)
    ensures Inv(Next(w, ApplyCapacity))
  {
    var w' := Next(w, ApplyCapacity);
    StatusIsKnown(w.coord, w.host.cfg, StatusOf(w.host, w.orders, w.reports[0]));
    FewerInUse(w, w');
    ApplyCapacityAccounted(w);
  }

  lemma ApplyCapacityAccounted(w: World)
    requires Accounted(w) && Bookkeeping(w) && w.host.Valid() && Enabled(w, ApplyCapacity)
    ensures Accounted(Next(w, ApplyCapacity)) && Bookkeeping(Next(w, ApplyCapacity))
  {
    var w' := Next(w, ApplyCapacity);
    assert Lists(w)[2] == w.reports[0];
    assert Lists(w') == Lists(w)[1 := w.reports[0]];
  }

  lemma ApplyStatusInv(w: World)
    requires Inv(w) && Enabled(w, ApplyStatus)
    ensures Inv(Next(w, ApplyStatus))
  {
    FewerInUse(w, Next(w, ApplyStatus));
    ApplyStatusAccounted(w);
  }

  lemma ApplyStatusAccounted(w: World)
    requires Accounted(w) && Bookkeeping(w) && w.host.Valid() && Enabled(w, ApplyStatus)
    ensures Accounted(Next(w, ApplyStatus)) && Bookkeeping(Next(w, ApplyStatus))
  {
    assert Lists(w)[2] == w.reports[0];
    assert Lists(Next(w, ApplyStatus)) == Lists(w)[0 := w.reports[0]];
  }

  lemma SettleInv(w: World)
    requires Inv(w) && Enabled(w, Settle)
    ensures Inv(Next(w, Settle))
  {
    FewerInUse(w, Next(w, Settle));
    SettleAccounted(w);
  }

  lemma SettleAccounted(w: World)
    requires Accounted(w) && Bookkeeping(w) && w.host.Valid() && Enabled(w, Settle)
    ensures Accounted(Next(w, Settle)) && Bookkeeping(Next(w, Settle))
  {
    var w' := Next(w, Settle);
    assert Lists(w)[0] == Lists(w)[1] == Lists(w)[2] == w.reports[0];
    assert forall i :: 2 <= i < |Lists(w')| ==> Lists(w')[i] == Lists(w)[i + 1];
  }

  predicate Legal(w: World, events: seq<Event>)
    requires w.host.Valid()
    decreases |events|
  {
    events == [] || (Enabled(w, events[0]) && Legal(Next(w, events[0]), events[1..]))
  }

  function Run(w: World, events: seq<Event>): (r: World)
    requires w.host.Valid() && Legal(w, events)
    ensures r.host == w.host
    decreases |events|
  {
    if events == [] then w else Run(Next(w, events[0]), events[1..])
  }

  predicate AllTimely(w: World, events: seq<Event>)
    requires w.host.Valid() && Legal(w, events)
    decreases |events|
  {
    events != [] ==> Timely(w, events[0]) && AllTimely(Next(w, events[0]), events[1..])
  }

  lemma {:induction false} RunInv(w: World, events: seq<Event>)
    requires Inv(w) && Legal(w, events) && AllTimely(w, events)
    ensures Inv(Run(w, events))
    decreases |events|
  {
    if events != [] {
      NextInv(w, events[0]);
      RunInv(Next(w, events[0]), events[1..]);
    }
  }

  /** On no run without late releases and starts do running VMs and reservations exceed `max_vms`, nor the VMs counted
      against a limit its maximum less what VMs outside the agent use. */
  lemma {:induction false} NeverOvercommitted(w: World, events: seq<Event>)
    requires Init(w) && Legal(w, events) && AllTimely(w, events)
    ensures Safe(Run(w, events))
  {
    InitInv(w);
    RunInv(w, events);
  }

  /** So on such a run the agent's own check never turns down a runner that it was sent with a slot. */
  lemma {:induction false} NeverTurnedDown(w: World, events: seq<Event>, runner: string)
    requires Init(w) && Legal(w, events) && AllTimely(w, events)
    requires runner in Run(w, events).Held() && runner !in Run(w, events).running && runner in Run(w, events).orders
    requires CountsSome(w.host, Run(w, events).orders[runner])
    ensures AgentAccepts(Run(w, events), runner)
  {
    NeverOvercommitted(w, events);
    var w' := Run(w, events);
    forall k | 0 <= k < |w'.host.limits| && w'.host.CountsAgainst(w'.orders[runner], w'.host.limits[k].name)
      ensures FreeSlots(w', k) > 0
    {
      HeldHasSlot(w', runner, k);
    }
  }

  lemma HeldHasSlot(w: World, runner: string, k: nat)
    requires Safe(w) && runner in w.Held() && runner !in w.running && runner in w.orders && k < |w.host.limits|
    requires w.host.CountsAgainst(w.orders[runner], w.host.limits[k].name)
    ensures FreeSlots(w, k) > 0
  {
    var name := w.host.limits[k].name;
    OneMoreUsing(w.host, w.orders, w.running, runner, name);
    SubsetSize(Using(w.host, w.orders, w.running + {runner}, name),
               Using(w.host, w.orders, w.running + w.Held(), name));
  }

  lemma OneMoreUsing(host: Host, orders: map<string, Order>, vms: set<string>, runner: string, limitName: string)
    requires host.Valid() && runner in orders && runner !in vms
    ensures |Using(host, orders, vms + {runner}, limitName)|
            == |Using(host, orders, vms, limitName)| + if host.CountsAgainst(orders[runner], limitName) then 1 else 0
  {
    var before, after := Using(host, orders, vms, limitName), Using(host, orders, vms + {runner}, limitName);
    if host.CountsAgainst(orders[runner], limitName) {
      assert after == before + {runner};
    } else {
      assert after == before;
    }
  }
}
