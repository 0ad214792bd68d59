/**
 VMs that start late (kuiper-agent-lib/src/vm_agent, against kuiper-forge/src/agent_registry.rs): a command that timed
 out has its slot released, but may still be carried out. The agent's own check keeps the host within bounds on every
 run; what suffers are the coordinator's accounts.
 */
module LateStarts {
  import opened Common
  import opened Labels
  import opened Capacity
  import opened Agreement
  import opened Overcommit

  // ---------- the host itself, with late starts ----------

  /** The limit that bounds `max_vms`, which every VM counts against. */
  predicate Total(host: Host, k: nat)
    requires host.Valid() && k < |host.limits|
  {
    host.limits[k].max <= host.maxVms
    && (host.PerSet() ==> forall names :: names in host.cfg.setLimits ==> host.limits[k].name in names)
  }

  predicate HasTotal(host: Host)
    requires host.Valid()
  {
    exists k :: 0 <= k < |host.limits| && Total(host, k)
  }

  /** The VMs that run fit every limit after what others use of it. */
  predicate Fits(w: World) {
    && w.host.Valid() && w.running <= w.orders.Keys
    && forall k :: 0 <= k < |w.host.limits| ==>
         |Using(w.host, w.orders, w.running, w.host.limits[k].name)|
           <= Sub(w.host.limits[k].max, w.host.limits[k].external)
  }

  lemma NextFits(w: World, e: Event)
    requires Fits(w) && w.running <= w.started && Enabled(w, e)
    ensures Fits(Next(w, e)) && Next(w, e).running <= Next(w, e).started && Next(w, e).host == w.host
  {
    var w' := Next(w, e);
    forall k | 0 <= k < |w.host.limits|
      ensures |Using(w'.host, w'.orders, w'.running, w.host.limits[k].name)|
              <= Sub(w.host.limits[k].max, w.host.limits[k].external)
    {
      var name := w.host.limits[k].name;
      if e.Start? {
        OneMoreUsing(w.host, w.orders, w.running, e.runner, name);
      } else {
        assert Using(w'.host, w'.orders, w'.running, name) <= Using(w.host, w.orders, w.running, name);
        SubsetSize(Using(w'.host, w'.orders, w'.running, name), Using(w.host, w.orders, w.running, name));
      }
    }
  }

  lemma {:induction false} RunFits(w: World, events: seq<Event>)
    requires Fits(w) && w.running <= w.started && Legal(w, events)
    ensures Fits(Run(w, events)) && Run(w, events).host == w.host
    decreases |events|
  {
    if events != [] {
      NextFits(w, events[0]);
      RunFits(Next(w, events[0]), events[1..]);
    }
  }

  /** On every run, whenever slots are released and VMs start, the VMs that run stay within every limit, and within
      `max_vms` if a limit that all VMs count against is no larger. */
  lemma {:induction false} HostNeverOverrun(w: World, events: seq<Event>)
    requires Init(w) && Legal(w, events)
    ensures Fits(Run(w, events))
    ensures HasTotal(w.host) ==> |Run(w, events).running| <= w.host.maxVms
  {
    forall k | 0 <= k < |w.host.limits|
      ensures |Using(w.host, w.orders, w.running, w.host.limits[k].name)|
              <= Sub(w.host.limits[k].max, w.host.limits[k].external)
    {
      assert w.running + w.Held() == w.running;
    }
    RunFits(w, events);
    var w' := Run(w, events);
    if k :| 0 <= k < |w.host.limits| && Total(w.host, k) {
      assert Using(w'.host, w'.orders, w'.running, w.host.limits[k].name) == w'.running;
    }
  }

  // ---------- `max_vms` as the agent works it out ----------

  /** `Tracker::max_vms`: the least limit that a set's VMs count against, or none at all. */
  function SetMax(limits: seq<HostLimit>, names: seq<string>): nat {
    if limits == [] then 0
    else
      var rest := SetMax(limits[1..], names);
      if limits[0].name !in names then rest
      else if forall l :: l in limits[1..] ==> l.name !in names then limits[0].max
      else if limits[0].max < rest then limits[0].max
      else rest
  }

  /** The most that any one set can run, as the status has it. */
  function AgentMax(limits: seq<HostLimit>, sets: seq<seq<string>>): nat {
    if sets == [] then 0
    else
      var rest := AgentMax(limits, sets[1..]);
      if SetMax(limits, sets[0]) < rest then rest else SetMax(limits, sets[0])
  }

  lemma {:induction false} SetMaxIsLeast(limits: seq<HostLimit>, names: seq<string>)
    requires exists l :: l in limits && l.name in names
    ensures forall l :: l in limits && l.name in names ==> SetMax(limits, names) <= l.max
    ensures exists l :: l in limits && l.name in names && SetMax(limits, names) == l.max
  {
    if exists l :: l in limits[1..] && l.name in names {
      SetMaxIsLeast(limits[1..], names);
    }
  }

  lemma {:induction false} AgentMaxIsMost(limits: seq<HostLimit>, sets: seq<seq<string>>, most: nat)
    requires sets != [] ==> exists s :: s in sets && SetMax(limits, s) == most
    requires sets != [] && forall s :: s in sets ==> SetMax(limits, s) <= most
    ensures AgentMax(limits, sets) == most
  {
    AgentMaxBounds(limits, sets, most);
  }

  lemma {:induction false} AgentMaxBounds(limits: seq<HostLimit>, sets: seq<seq<string>>, most: nat)
    requires forall s :: s in sets ==> SetMax(limits, s) <= most
    ensures AgentMax(limits, sets) <= most
    ensures forall s :: s in sets ==> SetMax(limits, s) <= AgentMax(limits, sets)
  {
    if sets != [] {
      AgentMaxBounds(limits, sets[1..], most);
    }
  }

  /** If one set's limits are among every other's, as the total is for all that agents run, then the maximum they
      report is bounded by a limit that every VM counts against. */
  lemma NestedSetsHaveTotal(host: Host, s: seq<string>)
    requires host.Valid() && host.maxVms == AgentMax(host.limits, host.cfg.setLimits)
    requires s in host.cfg.setLimits && exists l :: l in host.limits && l.name in s
    requires forall names, n :: names in host.cfg.setLimits && n in s ==> n in names
    ensures HasTotal(host)
  {
    SetMaxIsLeast(host.limits, s);
    forall names | names in host.cfg.setLimits ensures SetMax(host.limits, names) <= SetMax(host.limits, s) {
      SetMaxIsLeast(host.limits, names);
    }
    AgentMaxIsMost(host.limits, host.cfg.setLimits, SetMax(host.limits, s));
    var l :| l in host.limits && l.name in s && SetMax(host.limits, s) == l.max;
    var k :| 0 <= k < |host.limits| && host.limits[k] == l;
    assert Total(host, k);
  }

  // ---------- what a late start does to the accounts ----------

  /** Reservations whose VMs don't run, which the agent doesn't know of. */
  function Outstanding(w: World): set<string> { w.Held() - w.running }

  /** The agent has a slot for each reservation outstanding and one more, of `max_vms` and of every limit that the
      runner counts against. */
  predicate SlotToSpare(w: World, runner: string)
    requires w.host.Valid() && runner in w.orders
  {
    && |Outstanding(w)| < Sub(w.host.maxVms, |w.running|)
    && forall k :: 0 <= k < |w.host.limits| && w.host.CountsAgainst(w.orders[runner], w.host.limits[k].name) ==>
         |Using(w.host, w.orders, Outstanding(w), w.host.limits[k].name)| < FreeSlots(w, k)
  }

  /** A VM may start late and leave the accounts sound exactly if the agent has a slot to spare. Otherwise some
      reservation can't be honoured any more. */
  lemma LateStartIsSafeIff(w: World, runner: string)
    requires Safe(w) && runner in w.orders && runner !in w.running + w.Held() && runner !in w.started
    requires AgentAccepts(w, runner)
    ensures Safe(Next(w, Start(runner))) <==> SlotToSpare(w, runner)
  {
    var late := Next(w, Start(runner));
    assert late.running + late.Held() == w.running + w.Held() + {runner};
    assert w.running + w.Held() == w.running + Outstanding(w) && w.running !! Outstanding(w);
    forall k | 0 <= k < |w.host.limits|
      ensures |Using(w.host, w.orders, late.running + late.Held(), w.host.limits[k].name)|
              <= Sub(w.host.limits[k].max, w.host.limits[k].external)
              <==> !w.host.CountsAgainst(w.orders[runner], w.host.limits[k].name)
                   || |Using(w.host, w.orders, Outstanding(w), w.host.limits[k].name)| < FreeSlots(w, k)
    {
      LateStartOnLimit(w, runner, k);
    }
  }

  lemma LateStartOnLimit(w: World, runner: string, k: nat)
    requires Safe(w) && runner in w.orders && runner !in w.running + w.Held() && k < |w.host.limits|
    ensures |Using(w.host, w.orders, w.running + w.Held() + {runner}, w.host.limits[k].name)|
            <= Sub(w.host.limits[k].max, w.host.limits[k].external)
            <==> !w.host.CountsAgainst(w.orders[runner], w.host.limits[k].name)
                 || |Using(w.host, w.orders, Outstanding(w), w.host.limits[k].name)| < FreeSlots(w, k)
  {
    var name := w.host.limits[k].name;
    OneMoreUsing(w.host, w.orders, w.running + w.Held(), runner, name);
    assert w.running + w.Held() == w.running + Outstanding(w);
    UsingOfParts(w.host, w.orders, w.running, Outstanding(w), name);
  }

  lemma UsingOfParts(host: Host, orders: map<string, Order>, a: set<string>, b: set<string>, limitName: string)
    requires host.Valid() && a !! b
    ensures |Using(host, orders, a + b, limitName)|
            == |Using(host, orders, a, limitName)| + |Using(host, orders, b, limitName)|
  {
    assert Using(host, orders, a + b, limitName)
        == Using(host, orders, a, limitName) + Using(host, orders, b, limitName);
    assert Using(host, orders, a, limitName) !! Using(host, orders, b, limitName);
  }

  // ---------- that it happens ----------

  /** A host with a single slot, nothing on it, and a job that it can be sent. */
  predicate OneFreeSlot(w: World, order: Order) {
    && Init(w) && w.running == {} && w.orders == map[] && w.host.maxVms == 1
    && Routable(w.coord, order.labels, order.setId) && w.coord.HasCapacity(order.labels, order.setId)
    && CountsSome(w.host, order)
    && forall k :: 0 <= k < |w.host.limits| ==> w.host.limits[k].max == 1 && w.host.limits[k].external == 0
  }

  /** One runner's command times out, its slot goes to another, and then the first one's VM starts after all. */
  function TooLate(order: Order, first: string, second: string): seq<Event> {
    [Overcommit.Reserve(order.labels, order.setId, first, 0), Overcommit.Release(first),
     Overcommit.Reserve(order.labels, order.setId, second, 0), Start(first)]
  }

  /** Then the accounts have more than the host can run. The host doesn't: the other runner is turned down. */
  lemma LateStartOvercommits(w: World, order: Order, first: string, second: string)
    requires OneFreeSlot(w, order) && first != second
    ensures Legal(w, TooLate(order, first, second))
    ensures var w' := Run(w, TooLate(order, first, second));
            && w'.running == {first} && w'.Held() == {second}
            && |w'.running + w'.Held()| > w'.host.maxVms && !Safe(w') && Fits(w')
            && second in w'.orders && !AgentAccepts(w', second)
  {
    var late := World(w.host, w.coord.Reserve(order.labels, order.setId, second, 0),
                      map[first := order, second := order], {first}, {first}, w.reports, w.phase,
                      w.limitsFrom, w.countFrom);
    TooLateRunsTo(w, order, first, second, late);
    HostNeverOverrun(w, TooLate(order, first, second));
    assert late.running + late.Held() == {first, second};
    SecondIsTurnedDown(late, order, first, second);
  }

  lemma TooLateRunsTo(w: World, order: Order, first: string, second: string, late: World)
    requires OneFreeSlot(w, order) && first != second
    requires late == World(w.host, w.coord.Reserve(order.labels, order.setId, second, 0),
                           map[first := order, second := order], {first}, {first}, w.reports, w.phase, w.limitsFrom,
                           w.countFrom)
    ensures Legal(w, TooLate(order, first, second)) && Run(w, TooLate(order, first, second)) == late
  {
    var events := TooLate(order, first, second);
    var w2 := w.(orders := map[first := order]);
    SlotIsReleased(w, order, first);
    var w3 := late.(running := {}, started := {});
    assert Enabled(w2, events[2]) && Next(w2, events[2]) == w3;
    FirstIsAccepted(w3, order, first);
    assert Next(w3, events[3]) == late;
    assert events[1..] == [events[1], events[2], events[3]] && events[1..][1..] == [events[2], events[3]];
    assert events[1..][1..][1..] == [events[3]] && events[1..][1..][1..][1..] == [];
    RunsTo(w3, [events[3]]);
    RunsTo(w2, [events[2], events[3]]);
    RunsTo(Next(w, events[0]), [events[1], events[2], events[3]]);
    RunsTo(w, events);
  }

  lemma SlotIsReleased(w: World, order: Order, runner: string)
    requires OneFreeSlot(w, order)
    ensures var reserve := Overcommit.Reserve(order.labels, order.setId, runner, 0);
            && Enabled(w, reserve)
            && Next(Next(w, reserve), Overcommit.Release(runner)) == w.(orders := map[runner := order])
  {
    var w1 := Next(w, Overcommit.Reserve(order.labels, order.setId, runner, 0));
    var w2 := Next(w1, Overcommit.Release(runner));
    assert w2.coord.reservations == map[] == w.coord.reservations;
    assert w2.coord == w.coord;
  }

  lemma RunsTo(w: World, events: seq<Event>)
    requires w.host.Valid() && events != [] && Enabled(w, events[0]) && Legal(Next(w, events[0]), events[1..])
    ensures Legal(w, events) && Run(w, events) == Run(Next(w, events[0]), events[1..])
  {
  }

  lemma FirstIsAccepted(w: World, order: Order, first: string)
    requires w.host.Valid() && w.running == {} && first in w.orders && w.orders[first] == order
    requires CountsSome(w.host, order)
    requires forall k :: 0 <= k < |w.host.limits| ==> w.host.limits[k].max == 1 && w.host.limits[k].external == 0
    ensures AgentAccepts(w, first)
  {
    forall k | 0 <= k < |w.host.limits| ensures FreeSlots(w, k) > 0 {
      assert Using(w.host, w.orders, w.running, w.host.limits[k].name) == {};
    }
  }

  lemma SecondIsTurnedDown(w: World, order: Order, first: string, second: string)
    requires w.host.Valid() && w.running == {first} && first in w.orders && w.orders[first] == order
    requires second in w.orders && w.orders[second] == order && CountsSome(w.host, order)
    requires forall k :: 0 <= k < |w.host.limits| ==> w.host.limits[k].max == 1 && w.host.limits[k].external == 0
    ensures !AgentAccepts(w, second)
  {
    var k :| 0 <= k < |w.host.limits| && w.host.CountsAgainst(order, w.host.limits[k].name);
    assert Using(w.host, w.orders, w.running, w.host.limits[k].name) == {first};
    assert FreeSlots(w, k) == 0;
  }

  function SingleHost(): Host {
    Host(Config([], "image", [], [["total"]], true), 1, [HostLimit("total", 1, 0)])
  }

  /** There is such a host. */
  lemma SingleSlotExists()
    ensures exists w :: OneFreeSlot(w, Order([], ""))
  {
    var host := SingleHost();
    var status := StatusOf(host, map[], []);
    var coord := Agent(0, 0, CapacityOf(status), [], [], map[], false).WithStatus(status);
    var w := World(host, coord, map[], {}, {}, [], Waiting, [], []);
    assert host.cfg.setLimits[0] == ["total"];
    assert Using(host, map[], {}, "total") == {} && Elements([]) == {};
    assert w.running + w.Held() == {};
    assert Safe(w);
    assert host.CountsAgainst(Order([], ""), host.limits[0].name);
    HasCapacityMeansRoomEverywhere(coord, [], "");
    assert coord.labelSets[0] in coord.labelSets && SetCovers(coord.labelSets[0], []);
    assert OneFreeSlot(w, Order([], ""));
  }
}
