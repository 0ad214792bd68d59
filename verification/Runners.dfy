/** Runner records and reservations in every reachable state of the lifecycle. */
module Runners {
  import opened Common
  import opened Forge
  import opened Lifecycle

  predicate AtMostOneRunnerPerJob(st: Stores) {
    forall m, n :: m in st.runners && n in st.runners && st.runners[m].job == st.runners[n].job ==>
      m == n || st.runners[m].job.None?
  }

  /** The job whose runner the fleet loop is creating has no record yet. */
  predicate OneRunner(s: State) {
    && AtMostOneRunnerPerJob(s.st)
    && (s.loop.Creating? ==> !s.st.HasRunnerFor(s.loop.wanted.job))
    && (s.loop.Reserved? && s.loop.listed.Some? ==> !s.st.HasRunnerFor(s.loop.listed.value.job))
    && (s.loop.Reserved? ==> s.loop.name !in s.st.runners)
  }

  predicate MadeFor(s: State, name: string, agent: string) {
    name in s.past.madeFor && s.past.madeFor[name] == agent
  }

  predicate Owned(s: State) {
    && (forall n :: n in s.st.runners ==> MadeFor(s, n, s.st.runners[n].agent) && n != "")
    && (forall x :: x in s.st.slots ==> MadeFor(s, x.runner, x.agent) && x.runner != "")
    && (forall n :: n in s.tasks ==> MadeFor(s, n, s.tasks[n].case_.agent) && s.tasks[n].case_.name == n)
    && (s.loop.Reserved? ==> MadeFor(s, s.loop.name, s.loop.agent) && s.loop.name !in s.tasks && s.loop.name != "")
    && (s.loop.Undoing? ==>
          || s.loop.case_.name == ""
          || (MadeFor(s, s.loop.case_.name, s.loop.case_.agent) && s.loop.case_.name !in s.tasks))
    && (s.loop.Handling? ==> MadeFor(s, s.loop.case_.name, s.loop.case_.agent))
  }

  /** A record is only removed once its slot is released. */
  predicate SlotFirst(slots: set<Slot>, c: Case, todo: seq<Action>) {
    RemoveRecord in todo ==> todo[0] == Release || Slot(c.agent, c.name) !in slots
  }

  predicate SlotsFirst(s: State) {
    && (forall n :: n in s.tasks && s.tasks[n].plan.Some? ==>
          SlotFirst(s.st.slots, s.tasks[n].case_, s.tasks[n].plan.value))
    && (s.loop.Handling? ==> SlotFirst(s.st.slots, s.loop.case_, s.loop.todo))
    && (s.loop.Undoing? ==> RemoveRecord !in s.loop.todo && s.loop.case_.name !in s.st.runners)
  }

  /** The fleet loop has just made this reservation, or is about to give it back. */
  predicate Held(loop: Loop, x: Slot) {
    || (loop.Reserved? && Slot(loop.agent, loop.name) == x)
    || (loop.Undoing? && loop.todo != [] && loop.todo[0] == Release && Slot(loop.case_.agent, loop.case_.name) == x)
  }

  /** Every reservation belongs to a recorded runner of that agent, to the one being created, or to one that recovery
      removed. */
  predicate SlotsPaired(s: State) {
    && (forall x :: x in s.st.slots ==>
          || (x.runner in s.st.runners && s.st.runners[x.runner].agent == x.agent)
          || Held(s.loop, x)
          || x.runner in s.past.recovered)
    && (forall n :: n in s.past.recovered ==> n !in s.st.runners && n in s.past.madeFor)
    && (s.loop.Reserved? ==> s.loop.name !in s.past.recovered)
  }

  predicate Inv(s: State) { OneRunner(s) && Owned(s) && SlotsFirst(s) && SlotsPaired(s) }

  /** The fleet loop's steps from a listed job to a runner. */
  predicate Creates(step: Step) {
    step.StartScan? || step.Look? || step.Try? || step.PoolReserve? || step.Launch?
  }

  /** Those of command tasks and events. */
  predicate Works(step: Step) { step.TakeEvent? || step.GoOn? || step.Respond? || step.TaskStep? }

  lemma OneRunnerKept(s: State, step: Step)
    requires OneRunner(s) && Owned(s) && Enabled(s, step)
    ensures OneRunner(Next(s, step))
  {
    if Creates(step) { OneRunnerKeptCreating(s, step); }
  }

  lemma OneRunnerKeptCreating(s: State, step: Step)
    requires OneRunner(s) && Owned(s) && Enabled(s, step) && Creates(step)
    ensures OneRunner(Next(s, step))
  {
  }

  lemma OwnedKept(s: State, step: Step)
    requires Owned(s) && Enabled(s, step)
    ensures Owned(Next(s, step))
  {
    if Creates(step) {
      OwnedKeptCreating(s, step);
    } else if Works(step) {
      OwnedKeptWorking(s, step);
    }
  }

  lemma OwnedKeptCreating(s: State, step: Step)
    requires Owned(s) && Enabled(s, step) && Creates(step)
    ensures Owned(Next(s, step))
  {
    if step.Launch? { OwnedKeptLaunching(s, step); }
  }

  lemma OwnedKeptLaunching(s: State, step: Step)
    requires Owned(s) && Enabled(s, step) && step.Launch?
    ensures Owned(Next(s, step))
  {
  }

  lemma OwnedKeptWorking(s: State, step: Step)
    requires Owned(s) && Enabled(s, step) && Works(step)
    ensures Owned(Next(s, step))
  {
    WorkOnlyRemoves(s, step);
    if step.TakeEvent? {
      OwnedKeptTaking(s, step);
    }
  }

  lemma OwnedKeptTaking(s: State, step: Step)
    requires Owned(s) && Enabled(s, step) && step.TakeEvent?
    ensures Owned(Next(s, step))
  {
  }

  lemma WorkOnlyRemoves(s: State, step: Step)
    requires Enabled(s, step) && Works(step)
    ensures var s' := Next(s, step);
            && s'.st.slots <= s.st.slots && s'.past.madeFor == s.past.madeFor
            && (forall n :: n in s'.st.runners ==> n in s.st.runners && s'.st.runners[n] == s.st.runners[n])
            && s'.tasks.Keys == s.tasks.Keys && (forall n :: n in s.tasks ==> s'.tasks[n].case_ == s.tasks[n].case_)
  {
  }

  lemma SlotsFirstKept(s: State, step: Step)
    requires SlotsFirst(s) && OneRunner(s) && Owned(s) && Enabled(s, step)
    ensures SlotsFirst(Next(s, step))
  {
    if Creates(step) {
      SlotsFirstKeptCreating(s, step);
    } else if Works(step) {
      SlotsFirstKeptWorking(s, step);
    }
  }

  lemma SlotsFirstKeptCreating(s: State, step: Step)
    requires SlotsFirst(s) && OneRunner(s) && Owned(s) && Enabled(s, step) && Creates(step)
    ensures SlotsFirst(Next(s, step))
  {
  }

  lemma SlotsFirstKeptWorking(s: State, step: Step)
    requires SlotsFirst(s) && OneRunner(s) && Owned(s) && Enabled(s, step) && Works(step)
    ensures SlotsFirst(Next(s, step))
  {
    if step.TaskStep? {
      SlotsFirstKeptByTask(s, step.name);
    } else if step.GoOn? {
      SlotsFirstKeptByLoop(s);
    }
  }

  lemma SlotsFirstKeptByTask(s: State, name: string)
    requires SlotsFirst(s) && OneRunner(s) && Owned(s) && Enabled(s, TaskStep(name))
    ensures SlotsFirst(Next(s, TaskStep(name)))
  {
  }

  lemma SlotsFirstKeptByLoop(s: State)
    requires SlotsFirst(s) && OneRunner(s) && Owned(s) && Enabled(s, GoOn)
    ensures SlotsFirst(Next(s, GoOn))
  {
  }

  lemma SlotsPairedKept(s: State, step: Step)
    requires SlotsPaired(s) && SlotsFirst(s) && OneRunner(s) && Owned(s) && Enabled(s, step)
    ensures SlotsPaired(Next(s, step))
  {
    if Creates(step) {
      SlotsPairedKeptCreating(s, step);
    } else if Works(step) {
      SlotsPairedKeptWorking(s, step);
    }
  }

  lemma SlotsPairedKeptCreating(s: State, step: Step)
    requires SlotsPaired(s) && SlotsFirst(s) && OneRunner(s) && Owned(s) && Enabled(s, step) && Creates(step)
    ensures SlotsPaired(Next(s, step))
  {
  }

  lemma SlotsPairedKeptWorking(s: State, step: Step)
    requires SlotsPaired(s) && SlotsFirst(s) && Owned(s) && Enabled(s, step) && Works(step)
    ensures SlotsPaired(Next(s, step))
  {
    if step.TaskStep? {
      SlotsPairedKeptByTask(s, step.name);
    } else if step.GoOn? {
      SlotsPairedKeptByLoop(s);
    }
  }

  lemma SlotsPairedKeptByTask(s: State, name: string)
    requires SlotsPaired(s) && SlotsFirst(s) && Owned(s) && Enabled(s, TaskStep(name))
    ensures SlotsPaired(Next(s, TaskStep(name)))
  {
  }

  lemma SlotsPairedKeptByLoop(s: State)
    requires SlotsPaired(s) && SlotsFirst(s) && Owned(s) && Enabled(s, GoOn)
    ensures SlotsPaired(Next(s, GoOn))
  {
  }

  lemma NextInv(s: State, step: Step)
    requires Inv(s) && Enabled(s, step)
    ensures Inv(Next(s, step))
  {
    OneRunnerKept(s, step);
    OwnedKept(s, step);
    SlotsFirstKept(s, step);
    SlotsPairedKept(s, step);
  }

  lemma {:induction false} RunInv(s: State, steps: seq<Step>)
    requires Inv(s) && Legal(s, steps)
    ensures Inv(Run(s, steps))
    decreases |steps|
  {
    if steps != [] {
      NextInv(s, steps[0]);
      RunInv(Next(s, steps[0]), steps[1..]);
    }
  }

  // ---------- what holds on every run ----------

  /** At no time does a job have two runners, whatever comes between the fleet loop's steps, restarts included. */
  lemma {:induction false} OneRunnerPerJob(s: State, steps: seq<Step>, job: JobKey)
    requires Init(s) && Legal(s, steps)
    ensures |Run(s, steps).st.RunnersFor(job)| <= 1
  {
    RunInv(s, steps);
    var runners := Run(s, steps).st.RunnersFor(job);
    if m :| m in runners {
      SubsetSize(runners, {m});
    }
  }

  /** A reservation that the fleet loop isn't just making or giving back lacks its runner's record exactly if recovery
      removed that record; if it has one, then on the same agent. */
  lemma {:induction false} SlotLeaksIffRecovered(s: State, steps: seq<Step>, slot: Slot)
    requires Init(s) && Legal(s, steps)
    requires slot in Run(s, steps).st.slots && !Held(Run(s, steps).loop, slot)
    ensures var s' := Run(s, steps);
            && (slot.runner !in s'.st.runners <==> slot.runner in s'.past.recovered)
            && (slot.runner in s'.st.runners ==> s'.st.runners[slot.runner].agent == slot.agent)
  {
    RunInv(s, steps);
  }

  /** The history is right about that: recovery removed a record exactly if some step of it did. */
  lemma {:induction false} RecoveredMeans(s: State, steps: seq<Step>, name: string)
    requires Legal(s, steps)
    ensures name in Run(s, steps).past.recovered <==> name in s.past.recovered || RecoveryRemoves(name) in steps
    decreases |steps|
  {
    if steps != [] {
      assert forall step :: step in steps <==> step == steps[0] || step in steps[1..];
      RecoveredMeans(Next(s, steps[0]), steps[1..], name);
    }
  }

  /** Recovery does leave reservations behind. */
  lemma RecoveryLeaksASlot(agent: string, name: string)
    requires name != ""
    ensures exists s :: Reaches(Empty(), s) && s.loop.Idle? && Slot(agent, name) in s.st.slots && name !in s.st.runners
  {
    ReachesItself(Empty());
    var s1 := Next(Empty(), PoolReserve(agent, name));
    ReachesNext(Empty(), Empty(), PoolReserve(agent, name));
    var s2 := Next(s1, Launch(Failed, true));
    ReachesNext(Empty(), s1, Launch(Failed, true));
    var s3 := Next(s2, Look(false));
    ReachesNext(Empty(), s2, Look(false));
    var s4 := Next(s3, RecoveryRemoves(name));
    ReachesNext(Empty(), s3, RecoveryRemoves(name));
    assert Slot(agent, name) in s4.st.slots && name !in s4.st.runners;
  }

  /** Reconciling an agent's reservations with its records, once they are old enough, drops exactly the leaked ones:
      after it, each has its record, or is one the fleet loop is at. */
  lemma {:induction false} ReconcilingRepairsLeaks(s: State, steps: seq<Step>, agent: string, recorded: set<string>,
                                                   aged: set<string>, slot: Slot)
    requires Init(s) && Legal(s, steps)
    requires var s' := Run(s, steps);
             && recorded == (set n | n in s'.st.runners && s'.st.runners[n].agent == agent)
             && (forall x :: x in s'.st.slots && x.agent == agent && !Held(s'.loop, x) ==> x.runner in aged)
    requires slot in Run(s, steps).st.slots && slot.agent == agent && !Held(Run(s, steps).loop, slot)
    ensures slot in Next(Run(s, steps), ReconcileSlots(agent, recorded, aged)).st.slots <==>
            slot.runner !in Run(s, steps).past.recovered
  {
    SlotLeaksIffRecovered(s, steps, slot);
  }
}
