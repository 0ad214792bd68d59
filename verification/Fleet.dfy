/**
 The fleet loop's handlers as it runs them (kuiper-forge/src/fleet.rs), when nothing else comes between their steps,
 against the steps of `Lifecycle`.
 */
module Fleet {
  import opened Common
  import opened Forge
  import opened Lifecycle

  // ---------- what is done to the end ----------

  function Weight(action: Action): nat {
    match action
    case CountRetry(_) => 4
    case ReadFailed(_, _) => 3
    case WriteFailed(_, _) => 2
    case _ => 1
  }

  function Weights(todo: seq<Action>): nat {
    if todo == [] then 0 else Weight(todo[0]) + Weights(todo[1..])
  }

  lemma LeftWeighsLess(st: Stores, c: Case, todo: seq<Action>)
    requires todo != []
    ensures Weights(Left(st, c, todo)) < Weights(todo)
  {
    var follow := Follow(st, c, todo[0]);
    if follow == [] {
      assert follow + todo[1..] == todo[1..];
    } else {
      assert (follow + todo[1..])[1..] == todo[1..];
    }
  }

  function PerformAll(st: Stores, c: Case, todo: seq<Action>): Stores
    decreases Weights(todo)
  {
    if todo == [] then st
    else
      LeftWeighsLess(st, c, todo);
      PerformAll(Perform(st, c, todo[0]), c, Left(st, c, todo))
  }

  function AddFailedAgent(failed: seq<string>, agent: Option<string>): seq<string> {
    if agent.None? || agent.value in failed then failed else failed + [agent.value]
  }

  /** A failure dealt with to the end: counted and the agent remembered, or the job given up at the limit. */
  function Charge(pending: map<JobKey, Pending>, job: JobKey, agent: Option<string>): map<JobKey, Pending> {
    if job !in pending then pending
    else
      var p := pending[job];
      if p.retries + 1 >= MAX_RETRIES then pending - {job}
      else pending[job := p.(retries := p.retries + 1, failedAgents := AddFailedAgent(p.failedAgents, agent))]
  }

  lemma DoFirst(st: Stores, c: Case, action: Action, rest: seq<Action>)
    ensures PerformAll(st, c, [action] + rest) == PerformAll(Perform(st, c, action), c, Follow(st, c, action) + rest)
  {
    assert ([action] + rest)[1..] == rest;
  }

  /** The store calls of a failure, one after the other, charge the job. */
  lemma CountingCharges(st: Stores, c: Case, agent: Option<string>, rest: seq<Action>)
    requires c.job.Some?
    ensures PerformAll(st, c, [CountRetry(agent)] + rest)
            == PerformAll(st.(pending := Charge(st.pending, c.job.value, agent)), c, rest)
  {
    DoFirst(st, c, CountRetry(agent), rest);
    if !st.IsPending(c.job) {
      assert [] + rest == rest;
      assert st.(pending := Charge(st.pending, c.job.value, agent)) == st;
    } else {
      CountedIsCharged(st, c, agent, rest);
    }
  }

  lemma CountedIsCharged(st: Stores, c: Case, agent: Option<string>, rest: seq<Action>)
    requires st.IsPending(c.job)
    ensures PerformAll(Perform(st, c, CountRetry(agent)), c, Follow(st, c, CountRetry(agent)) + rest)
            == PerformAll(st.(pending := Charge(st.pending, c.job.value, agent)), c, rest)
  {
    var counted, last := Perform(st, c, CountRetry(agent)), st.pending[c.job.value].retries + 1 >= MAX_RETRIES;
    CountedThenDone(st, c.job.value, agent);
    if agent.Some? {
      ReadingEnds(counted, c, agent.value, last, rest);
    } else {
      GivingUpEnds(counted, c, last, rest);
    }
  }

  lemma CountedThenDone(st: Stores, job: JobKey, agent: Option<string>)
    requires job in st.pending
    ensures var p := st.pending[job].(retries := st.pending[job].retries + 1);
            var counted := st.pending[job := p];
            Charge(st.pending, job, agent) ==
            if p.retries >= MAX_RETRIES then counted - {job}
            else counted[job := p.(failedAgents := AddFailedAgent(p.failedAgents, agent))]
  {
  }

  lemma GivingUpEnds(st: Stores, c: Case, last: bool, rest: seq<Action>)
    requires c.job.Some?
    ensures PerformAll(st, c, GivingUp(last) + rest)
            == PerformAll(if last then st.(pending := st.pending - {c.job.value}) else st, c, rest)
  {
    if last {
      DoFirst(st, c, GiveUp, rest);
    }
    assert [] + rest == rest;
  }

  lemma ReadingEnds(st: Stores, c: Case, agent: string, last: bool, rest: seq<Action>)
    requires st.IsPending(c.job)
    ensures var p := st.pending[c.job.value];
            PerformAll(st, c, [ReadFailed(agent, last)] + rest)
            == PerformAll(
                 st.(pending := if last then st.pending - {c.job.value}
                                else st.pending[c.job.value :=
                                  p.(failedAgents := AddFailedAgent(p.failedAgents, Some(agent)))]), c, rest)
  {
    var failed := st.pending[c.job.value].failedAgents;
    DoFirst(st, c, ReadFailed(agent, last), rest);
    if agent in failed {
      GivingUpEnds(st, c, last, rest);
      assert st.pending[c.job.value := st.pending[c.job.value].(failedAgents := failed)] == st.pending;
    } else {
      WritingEnds(st, c, failed + [agent], last, rest);
    }
  }

  lemma WritingEnds(st: Stores, c: Case, list: seq<string>, last: bool, rest: seq<Action>)
    requires st.IsPending(c.job)
    ensures var p := st.pending[c.job.value];
            PerformAll(st, c, [WriteFailed(list, last)] + rest)
            == PerformAll(st.(pending := if last then st.pending - {c.job.value}
                                         else st.pending[c.job.value := p.(failedAgents := list)]), c, rest)
  {
    var written := Perform(st, c, WriteFailed(list, last));
    DoFirst(st, c, WriteFailed(list, last), rest);
    GivingUpEnds(written, c, last, rest);
    assert written.pending - {c.job.value} == st.pending - {c.job.value};
  }

  function Charged(st: Stores, c: Case, charged: bool): map<JobKey, Pending> {
    if charged && c.job.Some? then Charge(st.pending, c.job.value, Some(c.agent)) else st.pending
  }

  function Dropped(st: Stores, c: Case): map<JobKey, Pending> {
    if c.job.Some? then st.pending - {c.job.value} else st.pending
  }

  lemma CleanedUp(st: Stores, c: Case, middle: seq<Action>, recordFirst: bool)
    requires middle == [] || middle == [DropJob] || (c.job.Some? && middle == [CountRetry(Some(c.agent))])
    ensures PerformAll(st, c, [Release] + if recordFirst then [RemoveRecord] + middle else middle + [RemoveRecord])
            == Stores(PendingAfter(st, c, middle),
                      st.runners - {c.name}, st.slots - {Slot(c.agent, c.name)})
  {
    var released := Perform(st, c, Release);
    var todo := if recordFirst then [RemoveRecord] + middle else middle + [RemoveRecord];
    DoFirst(st, c, Release, todo);
    assert [] + todo == todo;
    if recordFirst {
      DoFirst(released, c, RemoveRecord, middle);
      assert [] + middle == middle;
      MiddleIsDone(Perform(released, c, RemoveRecord), c, middle, []);
      assert middle + [] == middle;
    } else {
      MiddleIsDone(released, c, middle, [RemoveRecord]);
      assert [RemoveRecord] + [] == [RemoveRecord];
      DoFirst(released.(pending := PendingAfter(released, c, middle)), c, RemoveRecord, []);
    }
  }

  function PendingAfter(st: Stores, c: Case, middle: seq<Action>): map<JobKey, Pending> {
    if middle == [] then st.pending else if middle == [DropJob] then Dropped(st, c) else Charged(st, c, true)
  }

  lemma MiddleIsDone(st: Stores, c: Case, middle: seq<Action>, rest: seq<Action>)
    requires middle == [] || middle == [DropJob] || (c.job.Some? && middle == [CountRetry(Some(c.agent))])
    ensures PerformAll(st, c, middle + rest) == PerformAll(st.(pending := PendingAfter(st, c, middle)), c, rest)
  {
    if middle == [] {
      assert [] + rest == rest;
    } else if middle == [DropJob] {
      DoFirst(st, c, DropJob, rest);
      assert [] + rest == rest;
    } else {
      CountingCharges(st, c, Some(c.agent), rest);
    }
  }

  /** An answer other than acceptance ends in neither a record nor a reservation of that runner and touches no other. */
  lemma CommandEffect(st: Stores, c: Case, response: Response)
    requires response != Accepted
    ensures PerformAll(st, c, CommandProgram(c, response))
            == Stores(if response == Succeeded(Done) then Dropped(st, c) else Charged(st, c, Fails(response)),
                      st.runners - {c.name}, st.slots - {Slot(c.agent, c.name)})
  {
    var middle :=
      if response == Succeeded(Done) then [DropJob] else if Fails(response) then Charges(c.job, c.agent) else [];
    CleanedUp(st, c, middle, response in {Unexpected, NoResponse});
    assert CommandProgram(c, response)
        == [Release]
           + if response in {Unexpected, NoResponse} then [RemoveRecord] + middle else middle + [RemoveRecord];
  }

  /** So does every first terminal event, which is charged if it is a failure that nobody asked for. */
  lemma EventEffect(st: Stores, mem: Memory, c: Case, kind: EventKind, check: JobCheck)
    requires Terminal(kind) && (c.name in mem.tearingDown || c.name !in mem.tornDown)
    ensures PerformAll(st, c, EventProgram(mem, c, kind, check))
            == Stores(if kind == RunCompleted && check == Done && c.name !in mem.tearingDown then Dropped(st, c)
                      else Charged(st, c, kind != RunCompleted && c.name !in mem.tearingDown),
                      st.runners - {c.name}, st.slots - {Slot(c.agent, c.name)})
  {
    var middle := if c.name in mem.tearingDown then []
                  else if kind == RunCompleted then (if check == Done then [DropJob] else [])
                  else Charges(c.job, c.agent);
    CleanedUp(st, c, middle, false);
    assert EventProgram(mem, c, kind, check) == [Release] + (middle + [RemoveRecord]);
  }

  // ---------- a pass over the pending jobs ----------

  /** What meets the creation of a runner for one job: no agent, a refusal, or a reservation, the forge's answer about
      the job, and whether it registers a runner. */
  datatype Made = Nobody | RefusedAtOnce | On(agent: string, name: string, status: Status, registered: bool) {
    function Names(): set<string> { if On? then {name} else {} }

    /** The creation fails, other than for want of an agent. */
    predicate Errs(repository: Option<string>) {
      RefusedAtOnce? || (On? && !NoLongerQueued(repository, status) && !registered)
    }
  }

  function Create(st: Stores, listed: Listed, made: Made): Stores {
    match made
    case Nobody => st
    case RefusedAtOnce => st.(pending := Charge(st.pending, listed.job, None))
    case On(agent, name, status, registered) =>
      if NoLongerQueued(listed.repository, status) then
        st.(pending := st.pending - {listed.job}, slots := st.slots - {Slot(agent, name)})
      else if !registered then
        st.(pending := Charge(st.pending, listed.job, None), slots := st.slots - {Slot(agent, name)})
      else
        st.(runners := st.runners[name := Runner(agent, Some(listed.job))], slots := st.slots + {Slot(agent, name)})
  }

  predicate Skipped(st: Stores, job: JobKey, backingOff: set<JobKey>) {
    job in backingOff || st.HasRunnerFor(job)
  }

  /** One listed job; `made` is what happens should it come to creating a runner. */
  function ProcessOne(st: Stores, listed: Listed, backingOff: set<JobKey>, made: Made): Stores {
    if listed.retries >= MAX_RETRIES then st.(pending := st.pending - {listed.job})
    else if Skipped(st, listed.job, backingOff) then st
    else Create(st, listed, made)
  }

  function Pass(st: Stores, jobs: seq<Listed>, backingOff: set<JobKey>, made: JobKey -> Made): Stores
    decreases |jobs|
  {
    if jobs == [] then st
    else Pass(ProcessOne(st, jobs[0], backingOff, made(jobs[0].job)), jobs[1..], backingOff, made)
  }

  /** Jobs are listed once each, and the names that will be given out are new and differ. */
  predicate NewNames(known: set<string>, jobs: seq<Listed>, made: JobKey -> Made) {
    && (forall l :: l in jobs ==> made(l.job).Names() !! known && "" !in made(l.job).Names())
    && (forall i, j :: 0 <= i < j < |jobs| ==>
          jobs[i].job != jobs[j].job && made(jobs[i].job).Names() !! made(jobs[j].job).Names())
  }

  lemma NewNamesAfterOne(known: set<string>, more: set<string>, jobs: seq<Listed>, made: JobKey -> Made)
    requires NewNames(known, jobs, made) && jobs != [] && more <= known + made(jobs[0].job).Names()
    ensures NewNames(more, jobs[1..], made)
  {
    var rest := jobs[1..];
    assert forall i :: 0 <= i < |rest| ==> rest[i] == jobs[i + 1];
    forall l | l in rest ensures made(l.job).Names() !! more && "" !in made(l.job).Names() {
      var i :| 0 <= i < |rest| && rest[i] == l;
      assert l in jobs && made(jobs[0].job).Names() !! made(jobs[i + 1].job).Names();
    }
  }

  /** What is planned, done to the end without disturbance. */
  lemma {:induction false} WorkIsRun(s: State) returns (steps: seq<Step>)
    requires Enabled(s, GoOn)
    ensures Legal(s, steps) && Run(s, steps).mem == s.mem && Run(s, steps).past.madeFor == s.past.madeFor
    ensures Run(s, steps).loop == if s.loop.Handling? then Idle else Scanning(s.loop.rest)
    ensures Run(s, steps).st == PerformAll(s.st, s.loop.case_, s.loop.todo)
    decreases Weights(s.loop.todo)
  {
    RunOne(s, GoOn);
    steps := [GoOn];
    if s.loop.todo != [] {
      LeftWeighsLess(s.st, s.loop.case_, s.loop.todo);
      var rest := WorkIsRun(Next(s, GoOn));
      RunConcat(s, steps, rest);
      steps := steps + rest;
    }
  }

  /** An undisturbed event is a run of the fleet loop's steps, from its rest to its rest. */
  lemma EventIsRun(s: State, agent: string, name: string, kind: EventKind, check: JobCheck) returns (steps: seq<Step>)
    requires s.loop == Idle && Enabled(s, TakeEvent(agent, name, kind, check))
    ensures Legal(s, steps) && Run(s, steps).loop == Idle
    ensures Run(s, steps).st == Handled(s.st, s.mem, agent, name, kind, check)
    ensures Run(s, steps).mem == Remembered(s.st, s.mem, name, kind)
  {
    var taken := Next(s, TakeEvent(agent, name, kind, check));
    RunOne(s, TakeEvent(agent, name, kind, check));
    steps := [TakeEvent(agent, name, kind, check)];
    if taken.loop.Handling? {
      var rest := WorkIsRun(taken);
      RunConcat(s, steps, rest);
      steps := steps + rest;
    }
  }

  function Handled(st: Stores, mem: Memory, agent: string, name: string, kind: EventKind, check: JobCheck): Stores {
    if name == "" || name !in st.runners then st
    else
      var c := Case(name, agent, st.runners[name].job);
      PerformAll(st, c, EventProgram(mem, c, kind, check))
  }

  function Remembered(st: Stores, mem: Memory, name: string, kind: EventKind): Memory {
    if name == "" then mem else AfterEvent(mem, name, kind, name in st.runners)
  }

  /** The fleet loop's own steps for one job do what is said of it. */
  lemma OneIsRun(s: State, listed: Listed, rest: seq<Listed>, backingOff: set<JobKey>, made: Made)
    returns (steps: seq<Step>)
    requires s.loop == Scanning([listed] + rest) && made.Names() !! s.past.madeFor.Keys && "" !in made.Names()
    ensures Legal(s, steps) && Run(s, steps).st == ProcessOne(s.st, listed, backingOff, made)
    ensures Run(s, steps).loop == Scanning(rest)
    ensures Run(s, steps).past.madeFor.Keys <= s.past.madeFor.Keys + made.Names()
  {
    assert s.loop.jobs[1..] == rest;
    var look := Look(listed.job in backingOff);
    RunOne(s, look);
    steps := [look];
    if listed.retries < MAX_RETRIES && !Skipped(s.st, listed.job, backingOff) {
      var more := CreatingIsRun(Next(s, look), listed, rest, made);
      RunConcat(s, steps, more);
      steps := steps + more;
    }
  }

  lemma CreatingIsRun(s: State, listed: Listed, rest: seq<Listed>, made: Made) returns (steps: seq<Step>)
    requires s.loop == Creating(listed, rest) && made.Names() !! s.past.madeFor.Keys && "" !in made.Names()
    ensures Legal(s, steps) && Run(s, steps).st == Create(s.st, listed, made) && Run(s, steps).loop == Scanning(rest)
    ensures Run(s, steps).past.madeFor.Keys <= s.past.madeFor.Keys + made.Names()
  {
    match made
    case Nobody =>
      RunOne(s, Try(NoAgent));
      steps := [Try(NoAgent)];
    case RefusedAtOnce =>
      var refused := Next(s, Try(Refused));
      RunOne(s, Try(Refused));
      var more := WorkIsRun(refused);
      RunConcat(s, [Try(Refused)], more);
      steps := [Try(Refused)] + more;
      FailingCharges(refused.st, Case("", "", Some(listed.job)));
    case On(agent, name, status, registered) =>
      var given := Next(s, Try(Given(agent, name)));
      RunOne(s, Try(Given(agent, name)));
      var more := LaunchingIsRun(given, listed, rest, made);
      RunConcat(s, [Try(Given(agent, name))], more);
      steps := [Try(Given(agent, name))] + more;
      assert given.st.slots - {Slot(agent, name)} == s.st.slots - {Slot(agent, name)};
  }

  lemma LaunchingIsRun(s: State, listed: Listed, rest: seq<Listed>, made: Made) returns (steps: seq<Step>)
    requires made.On? && s.loop == Reserved(Some(listed), made.agent, made.name, rest)
    requires Slot(made.agent, made.name) in s.st.slots
    ensures Legal(s, steps) && Run(s, steps).loop == Scanning(rest)
    ensures Run(s, steps).st == Create(s.st, listed, made) && Run(s, steps).past.madeFor == s.past.madeFor
  {
    var launch := Launch(made.status, made.registered);
    var launched := Next(s, launch);
    RunOne(s, launch);
    steps := [launch];
    if launched.loop.Undoing? {
      var more := WorkIsRun(launched);
      RunConcat(s, steps, more);
      steps := steps + more;
      UndoingRestores(s.st, launched.loop.case_);
    } else {
      assert s.st.slots + {Slot(made.agent, made.name)} == s.st.slots;
    }
  }

  lemma FailingCharges(st: Stores, c: Case)
    requires c.job.Some?
    ensures PerformAll(st, c, [CountRetry(None)]) == st.(pending := Charge(st.pending, c.job.value, None))
  {
    CountingCharges(st, c, None, []);
    assert [CountRetry(None)] + [] == [CountRetry(None)];
  }

  lemma UndoingRestores(st: Stores, c: Case)
    requires c.job.Some?
    ensures PerformAll(st, c, [Release, DropJob])
            == st.(pending := st.pending - {c.job.value}, slots := st.slots - {Slot(c.agent, c.name)})
    ensures PerformAll(st, c, [Release] + [CountRetry(None)])
            == st.(pending := Charge(st.pending, c.job.value, None), slots := st.slots - {Slot(c.agent, c.name)})
  {
    var released := Perform(st, c, Release);
    DoFirst(st, c, Release, [DropJob]);
    assert [] + [DropJob] == [DropJob] && [Release] + [DropJob] == [Release, DropJob];
    DoFirst(released, c, DropJob, []);
    assert [DropJob] + [] == [DropJob];
    DoFirst(st, c, Release, [CountRetry(None)]);
    assert [] + [CountRetry(None)] == [CountRetry(None)];
    FailingCharges(released, c);
  }

  /** An undisturbed pass is a run of the fleet loop's steps. */
  lemma {:induction false} PassIsRun(s: State, jobs: seq<Listed>, backingOff: set<JobKey>, made: JobKey -> Made)
    returns (steps: seq<Step>)
    requires s.loop == Scanning(jobs) && NewNames(s.past.madeFor.Keys, jobs, made)
    ensures Legal(s, steps) && Run(s, steps).st == Pass(s.st, jobs, backingOff, made) && Run(s, steps).loop == Idle
    decreases |jobs|
  {
    if jobs == [] {
      RunOne(s, Look(false));
      steps := [Look(false)];
    } else {
      assert jobs == [jobs[0]] + jobs[1..];
      steps := OneIsRun(s, jobs[0], jobs[1..], backingOff, made(jobs[0].job));
      var s' := Run(s, steps);
      NewNamesAfterOne(s.past.madeFor.Keys, s'.past.madeFor.Keys, jobs, made);
      var more := PassIsRun(s', jobs[1..], backingOff, made);
      RunConcat(s, steps, more);
      steps := steps + more;
    }
  }

  // ---------- what a pass does to one job ----------

  /** What the stores say of one job. */
  function Standing(st: Stores, job: JobKey): (Option<Pending>, bool) {
    (if job in st.pending then Some(st.pending[job]) else None, st.HasRunnerFor(job))
  }

  /** Each pending job once, as it stands. */
  predicate IsListing(jobs: seq<Listed>, st: Stores) {
    && (forall l :: l in jobs ==> IsListed(st, l))
    && (forall i, j :: 0 <= i < j < |jobs| ==> jobs[i].job != jobs[j].job)
    && (forall j :: j in st.pending ==> exists l :: l in jobs && l.job == j)
  }

  lemma OthersStay(st: Stores, listed: Listed, backingOff: set<JobKey>, made: Made, job: JobKey)
    requires job != listed.job && made.Names() !! st.runners.Keys
    ensures Standing(ProcessOne(st, listed, backingOff, made), job) == Standing(st, job)
    ensures ProcessOne(st, listed, backingOff, made).runners.Keys <= st.runners.Keys + made.Names()
  {
    var st' := ProcessOne(st, listed, backingOff, made);
    if n :| n in st.runners && st.runners[n].job == Some(job) {
      assert n in st'.runners && st'.runners[n].job == Some(job);
    }
  }

  /** Only the job itself matters to what is done with it. */
  lemma OneDependsOnStanding(st: Stores, other: Stores, listed: Listed, backingOff: set<JobKey>, made: Made)
    requires Standing(st, listed.job) == Standing(other, listed.job)
    requires made.Names() !! st.runners.Keys && made.Names() !! other.runners.Keys
    ensures Standing(ProcessOne(st, listed, backingOff, made), listed.job)
            == Standing(ProcessOne(other, listed, backingOff, made), listed.job)
  {
    assert st.HasRunnerFor(listed.job) == other.HasRunnerFor(listed.job);
    var after, others := ProcessOne(st, listed, backingOff, made), ProcessOne(other, listed, backingOff, made);
    if made.On? && made.name in after.runners && after.runners[made.name].job == Some(listed.job) {
      assert after.HasRunnerFor(listed.job);
    }
    if made.On? && made.name in others.runners && others.runners[made.name].job == Some(listed.job) {
      assert others.HasRunnerFor(listed.job);
    }
  }

  /** A pass leaves each listed job as its own turn would from the start, and others alone. */
  lemma {:induction false} PassOnJob(st: Stores, jobs: seq<Listed>, backingOff: set<JobKey>, made: JobKey -> Made,
                                     job: JobKey)
    requires NewNames(st.runners.Keys, jobs, made)
    ensures (forall l :: l in jobs ==> l.job != job) ==>
              Standing(Pass(st, jobs, backingOff, made), job) == Standing(st, job)
    ensures forall l :: l in jobs && l.job == job ==>
              Standing(Pass(st, jobs, backingOff, made), job) == Standing(ProcessOne(st, l, backingOff, made(job)), job)
    decreases |jobs|
  {
    if jobs != [] {
      var first := jobs[0];
      var st' := ProcessOne(st, first, backingOff, made(first.job));
      OthersStayFirst(st, jobs, backingOff, made, job);
      NewNamesAfterOne(st.runners.Keys, st'.runners.Keys, jobs, made);
      PassOnJob(st', jobs[1..], backingOff, made, job);
      forall l | l in jobs && l.job == job
        ensures Standing(Pass(st, jobs, backingOff, made), job)
                == Standing(ProcessOne(st, l, backingOff, made(job)), job)
      {
        var i :| 0 <= i < |jobs| && jobs[i] == l;
        if i == 0 {
          forall k | k in jobs[1..] ensures k.job != job {
            var n :| 0 <= n < |jobs[1..]| && jobs[1..][n] == k;
            assert jobs[n + 1] == k;
          }
        } else {
          assert jobs[1..][i - 1] == l && first.job != job;
          OneDependsOnStanding(st, st', l, backingOff, made(job));
        }
      }
    }
  }

  lemma OthersStayFirst(st: Stores, jobs: seq<Listed>, backingOff: set<JobKey>, made: JobKey -> Made, job: JobKey)
    requires NewNames(st.runners.Keys, jobs, made) && jobs != []
    ensures var st' := ProcessOne(st, jobs[0], backingOff, made(jobs[0].job));
            && st'.runners.Keys <= st.runners.Keys + made(jobs[0].job).Names()
            && (jobs[0].job != job ==> Standing(st', job) == Standing(st, job))
            && (forall l :: l in jobs[1..] ==>
                  made(l.job).Names() !! st'.runners.Keys && made(l.job).Names() !! st.runners.Keys)
  {
    var m := made(jobs[0].job);
    assert jobs[0] in jobs;
    var st' := ProcessOne(st, jobs[0], backingOff, m);
    if jobs[0].job != job {
      OthersStay(st, jobs[0], backingOff, m, job);
    }
    assert st'.runners.Keys <= st.runners.Keys + m.Names();
    NewNamesAfterOne(st.runners.Keys, st'.runners.Keys, jobs, made);
    forall l | l in jobs[1..] ensures made(l.job).Names() !! st.runners.Keys { assert l in jobs; }
  }

  /** A pass takes a job off the queue exactly if it was at the limit, or the pass came to make a runner for it and
      either the forge said it isn't queued any more or that failed for the last time. */
  predicate PassDrops(st: Stores, l: Listed, backingOff: set<JobKey>, made: Made) {
    || l.retries >= MAX_RETRIES
    || (!Skipped(st, l.job, backingOff)
        && ((made.On? && NoLongerQueued(l.repository, made.status))
            || (made.Errs(l.repository) && l.retries + 1 >= MAX_RETRIES)))
  }

  lemma PassDropsIff(st: Stores, jobs: seq<Listed>, backingOff: set<JobKey>, made: JobKey -> Made, l: Listed)
    requires IsListing(jobs, st) && NewNames(st.runners.Keys, jobs, made) && l in jobs
    ensures l.job !in Pass(st, jobs, backingOff, made).pending <==> PassDrops(st, l, backingOff, made(l.job))
    ensures var after := Pass(st, jobs, backingOff, made).pending;
            l.job in after ==>
              && after[l.job].repository == st.pending[l.job].repository
              && after[l.job].created == st.pending[l.job].created
  {
    PassOnJob(st, jobs, backingOff, made, l.job);
    assert Standing(Pass(st, jobs, backingOff, made), l.job).0
        == Standing(ProcessOne(st, l, backingOff, made(l.job)), l.job).0;
  }

  /** After a pass a listed job has a runner exactly if it had one, or it wasn't held back, an agent was found, and the
      forge had it queued and registered a runner. */
  lemma PassServesIff(st: Stores, jobs: seq<Listed>, backingOff: set<JobKey>, made: JobKey -> Made, l: Listed)
    requires IsListing(jobs, st) && NewNames(st.runners.Keys, jobs, made) && l in jobs
    ensures var m := made(l.job);
            Pass(st, jobs, backingOff, made).HasRunnerFor(l.job) <==>
            || st.HasRunnerFor(l.job)
            || (&& l.retries < MAX_RETRIES && l.job !in backingOff
                && m.On? && !NoLongerQueued(l.repository, m.status) && m.registered)
  {
    PassOnJob(st, jobs, backingOff, made, l.job);
    var m, after := made(l.job), ProcessOne(st, l, backingOff, made(l.job));
    assert Standing(Pass(st, jobs, backingOff, made), l.job).1 == Standing(after, l.job).1;
    if m.On? && m.name in after.runners && after.runners[m.name].job == Some(l.job) {
      assert after.HasRunnerFor(l.job);
    }
    if n :| n in st.runners && st.runners[n].job == Some(l.job) {
      assert n in after.runners && after.runners[n].job == Some(l.job);
    }
  }

  /** A job that a restart left at the limit is off the queue after the next scan. */
  lemma OverdueIsGivenUp(s: State, jobs: seq<Listed>, backingOff: set<JobKey>, made: JobKey -> Made, job: JobKey)
    returns (steps: seq<Step>)
    requires s.loop == Idle && IsListing(jobs, s.st) && s.st.runners.Keys <= s.past.madeFor.Keys
    requires NewNames(s.past.madeFor.Keys, jobs, made) && job in OverLimit(s.st.pending)
    ensures Legal(s, steps) && Run(s, steps).loop == Idle && job !in Run(s, steps).st.pending
  {
    RunOne(s, StartScan(jobs));
    var more := PassIsRun(Next(s, StartScan(jobs)), jobs, backingOff, made);
    RunConcat(s, [StartScan(jobs)], more);
    steps := [StartScan(jobs)] + more;
    var l: Listed :| l in jobs && l.job == job;
    assert IsListed(s.st, l);
    PassDropsIff(s.st, jobs, backingOff, made, l);
  }

  // ---------- holding a job back after an idle teardown ----------

  /** Seconds */
  const MAX_IDLE_BACKOFF: nat := 3600

  function Min(a: nat, b: nat): nat { if a < b then a else b }

  function NextIdleBackoff(previous: Option<nat>, timeout: nat): nat {
    Min(if previous.None? then timeout else previous.value * 2, MAX_IDLE_BACKOFF)
  }

  /** The delay after `n` teardowns in a row of one job's runners. */
  function BackoffAfter(n: nat, timeout: nat): Option<nat> {
    if n == 0 then None else Some(NextIdleBackoff(BackoffAfter(n - 1, timeout), timeout))
  }

  function Pow2(n: nat): nat { if n == 0 then 1 else 2 * Pow2(n - 1) }

  lemma {:induction false} BackoffDoubles(n: nat, timeout: nat)
    requires n > 0
    ensures BackoffAfter(n, timeout) == Some(Min(timeout * Pow2(n - 1), MAX_IDLE_BACKOFF))
  {
    if n > 1 {
      BackoffDoubles(n - 1, timeout);
      assert timeout * Pow2(n - 1) == 2 * (timeout * Pow2(n - 2));
    }
  }

  // ---------- the handlers ----------

  /** Some pass over all that is pending. */
  ghost predicate IsPass(before: Stores, after: Stores, backingOff: set<JobKey>, made: JobKey -> Made) {
    exists jobs :: IsListing(jobs, before) && after == Pass(before, jobs, backingOff, made)
  }

  class FleetManager {
    var pending: map<JobKey, Pending>
    var runners: map<string, Runner>
    var slots: set<Slot>
    var tearingDown: set<string>
    var tornDown: set<string>
    var draining: set<string>

    function Shared(): Stores reads this { Stores(pending, runners, slots) }

    function Memories(): Memory reads this { Memory(tearingDown, tornDown, draining) }

    /** The new count, for a job that is pending. */
    method IncrementRetryCount(job: JobKey, failedAgent: Option<string>) returns (count: Option<nat>)
      modifies this`pending
      ensures count.None? ==> job !in old(pending) && pending == old(pending)
      ensures count.Some? ==>
                && job in old(pending) && count.value == old(pending)[job].retries + 1
                && var failed := AddFailedAgent(old(pending)[job].failedAgents, failedAgent);
                   pending == old(pending)[job := old(pending)[job].(retries := count.value, failedAgents := failed)]
    {
      if job !in pending {
        return None;
      }
      pending := pending[job := pending[job].(retries := pending[job].retries + 1)];
      count := Some(pending[job].retries);
      if failedAgent.Some? {
        RecordFailedAgent(job, failedAgent.value);
      }
    }

    method RecordFailedAgent(job: JobKey, agent: string)
      modifies this`pending
      ensures job !in old(pending) ==> pending == old(pending)
      ensures job in old(pending) ==>
                var p := old(pending)[job];
                pending == old(pending)[job := p.(failedAgents := AddFailedAgent(p.failedAgents, Some(agent)))]
    {
      if job !in pending {
        return;
      }
      var failed := pending[job].failedAgents;
      if agent in failed {
        return;
      }
      failed := failed + [agent];
      pending := pending[job := pending[job].(failedAgents := failed)];
    }

    /** A failure: the retry is counted, and the job abandoned at the limit. */
    method CountFailure(job: JobKey, failedAgent: Option<string>)
      modifies this`pending
      ensures pending == Charge(old(pending), job, failedAgent)
    {
      var count := IncrementRetryCount(job, failedAgent);
      if count.Some? && count.value >= MAX_RETRIES {
        pending := pending - {job};
      }
      assert job in old(pending) && count.value >= MAX_RETRIES ==> pending == old(pending) - {job};
    }

    /** Handles one event and then goes over the pending jobs, unless there was nothing to handle. */
    method HandleRunnerEvent(agent: string, name: string, kind: EventKind, check: JobCheck,
                             backingOff: set<JobKey>, made: JobKey -> Made)
      modifies this
      ensures Memories() == Remembered(old(Shared()), old(Memories()), name, kind)
      ensures var idle := name == "" || !Terminal(kind)
                          || (name in old(tornDown) && name !in old(tearingDown));
              if idle then Shared() == old(Shared())
              else IsPass(Handled(old(Shared()), old(Memories()), agent, name, kind, check), Shared(), backingOff, made)
    {
      if name == "" || !Terminal(kind) {
        return;
      }
      var late := CleanUp(agent, name, kind, check);
      if !late {
        ProcessPendingJobs(backingOff, made);
      }
    }

    /** True for the event of a runner that was torn down for idling before. */
    method CleanUp(agent: string, name: string, kind: EventKind, check: JobCheck) returns (late: bool)
      requires name != "" && Terminal(kind)
      modifies this
      ensures late <==> name in old(tornDown) && name !in old(tearingDown)
      ensures Shared() == if late then old(Shared())
                          else Handled(old(Shared()), old(Memories()), agent, name, kind, check)
      ensures Memories() == Remembered(old(Shared()), old(Memories()), name, kind)
    {
      var info := if name in runners then Some(runners[name]) else None;
      var idled := name in tearingDown;
      if idled {
        tearingDown := tearingDown - {name};
        tornDown := tornDown + {name};
      }
      late := !idled && name in tornDown;
      if late {
        return;
      }
      if info.Some? {
        EventEffect(Shared(), old(Memories()), Case(name, agent, info.value.job), kind, check);
      }
      if idled {
        if info.Some? {
          slots := slots - {Slot(agent, name)};
          runners := runners - {name};
        }
        return;
      }
      if info.None? {
        return;
      }
      slots := slots - {Slot(agent, name)};
      draining := draining - {name};
      if info.value.job.Some? {
        var job := info.value.job.value;
        if kind == RunCompleted {
          if check == Done {
            pending := pending - {job};
          }
        } else {
          CountFailure(job, Some(agent));
        }
      }
      runners := runners - {name};
    }

    /** Returns false on an error other than having no agent. */
    method CreateRunnerOnDemand(listed: Listed, made: Made) returns (ok: bool)
      modifies this`pending, this`runners, this`slots
      ensures ok <==> !made.Errs(listed.repository)
      ensures ok ==> Shared() == Create(old(Shared()), listed, made)
      ensures !ok ==> Shared() == old(Shared()).(slots := slots)
                      && slots == old(slots) - if made.On? then {Slot(made.agent, made.name)} else {}
    {
      match made
      case Nobody => ok := true;
      case RefusedAtOnce =>
        assert slots == old(slots) - {};
        ok := false;
      case On(agent, name, status, registered) =>
        slots := slots + {Slot(agent, name)};
        if listed.repository.Some? {
          match status {
            case Found(s) =>
              if s != "queued" {
                slots := slots - {Slot(agent, name)};
                pending := pending - {listed.job};
                assert slots == old(slots) - {Slot(agent, name)};
                return true;
              }
            case NotFound =>
              slots := slots - {Slot(agent, name)};
              pending := pending - {listed.job};
              assert slots == old(slots) - {Slot(agent, name)};
              return true;
            case Failed =>
          }
        }
        if !registered {
          slots := slots - {Slot(agent, name)};
          assert slots == old(slots) - {Slot(agent, name)};
          return false;
        }
        runners := runners[name := Runner(agent, Some(listed.job))];
        return true;
    }

    method ProcessPendingJobs(backingOff: set<JobKey>, made: JobKey -> Made)
      modifies this`pending, this`runners, this`slots
      ensures IsPass(old(Shared()), Shared(), backingOff, made)
    {
      var jobs := ListPendingJobs();
      for i := 0 to |jobs|
        invariant Pass(Shared(), jobs[i..], backingOff, made) == Pass(old(Shared()), jobs, backingOff, made)
      {
        assert jobs[i..][1..] == jobs[i + 1..];
        ProcessJob(jobs[i], backingOff, made(jobs[i].job));
      }
    }

    /** In any order. */
    method ListPendingJobs() returns (jobs: seq<Listed>)
      ensures IsListing(jobs, Shared())
    {
      jobs := [];
      var left := pending.Keys;
      while left != {}
        invariant left <= pending.Keys
        invariant forall l :: l in jobs ==> IsListed(Shared(), l) && l.job !in left
        invariant forall i, j :: 0 <= i < j < |jobs| ==> jobs[i].job != jobs[j].job
        invariant forall j :: j in pending && j !in left ==> exists l :: l in jobs && l.job == j
        decreases |left|
      {
        var job :| job in left;
        left := left - {job};
        ghost var before := jobs;
        assert forall l :: l in before ==> l.job != job;
        jobs := jobs + [Listed(job, pending[job].retries, pending[job].repository)];
        forall j | j in pending && j !in left ensures exists l :: l in jobs && l.job == j {
          if j == job {
            assert jobs[|before|] in jobs;
          } else {
            var l :| l in before && l.job == j;
            assert l in jobs;
          }
        }
      }
    }

    method ProcessJob(listed: Listed, backingOff: set<JobKey>, made: Made)
      modifies this`pending, this`runners, this`slots
      ensures Shared() == ProcessOne(old(Shared()), listed, backingOff, made)
    {
      if listed.retries >= MAX_RETRIES {
        pending := pending - {listed.job};
        return;
      }
      if listed.job in backingOff {
        return;
      }
      var existing := set n | n in runners && runners[n].job == Some(listed.job);
      assert existing == Shared().RunnersFor(listed.job);
      if existing != {} {
        var n :| n in existing;
        assert n in runners && runners[n].job == Some(listed.job);
        return;
      }
      assert forall n :: n in runners && runners[n].job == Some(listed.job) ==> n in existing;
      assert !Shared().HasRunnerFor(listed.job);
      var ok := CreateRunnerOnDemand(listed, made);
      if !ok {
        CountFailure(listed.job, None);
        assert made.RefusedAtOnce? ==> slots == old(slots);
      }
    }
  }
}
