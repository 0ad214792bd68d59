/**
 The life of a runner made for a job (kuiper-forge/src/fleet.rs, with pending_jobs.rs and runner_state.rs) as a step
 system. The fleet loop is one task and takes its steps in order, but between two of them (wherever it awaits) command
 tasks, webhooks, status messages and recovery change the stores, and the coordinator can be restarted. Every call of a
 store is a step of its own. Stores act as maps, and runner names are new.
 */
module Lifecycle {
  import opened Common
  import opened Forge

  const MAX_RETRIES: nat := 3

  datatype Pending = Pending(retries: nat, failedAgents: seq<string>, repository: Option<string>, created: int)

  datatype Runner = Runner(agent: string, job: Option<JobKey>)

  /** A reservation on an agent, by runner name. */
  datatype Slot = Slot(agent: string, runner: string)

  /** What the fleet loop and the command tasks share. */
  datatype Stores = Stores(pending: map<JobKey, Pending>, runners: map<string, Runner>, slots: set<Slot>) {
    /** `runners_for_job` finds something. */
    predicate HasRunnerFor(job: JobKey) {
      exists n :: n in runners && runners[n].job == Some(job)
    }

    function RunnersFor(job: JobKey): set<string> {
      set n | n in runners && runners[n].job == Some(job)
    }

    predicate IsPending(job: Option<JobKey>) { job.Some? && job.value in pending }
  }

  // ---------- what is done about one runner, one store call at a time ----------

  /** The runner in question, its agent and its job. */
  datatype Case = Case(name: string, agent: string, job: Option<JobKey>)

  datatype Action =
    | Release
    | RemoveRecord
    | DropJob
    /** A failed attempt at the job: counts it, then remembers the agent to blame, then gives the job up at the limit */
    | CountRetry(blamed: Option<string>)
    | ReadFailed(agent: string, last: bool)
    | WriteFailed(list: seq<string>, last: bool)
    | GiveUp
  {
    predicate Housekeeping() { Release? || RemoveRecord? }

    /** A failure that is counted, but not dealt with to the end. */
    predicate Unfinished() { ReadFailed? || WriteFailed? || GiveUp? }

    predicate EndsInGivingUp() { GiveUp? || ((ReadFailed? || WriteFailed?) && last) }
  }

  function Perform(st: Stores, c: Case, action: Action): Stores {
    match action
    case Release => st.(slots := st.slots - {Slot(c.agent, c.name)})
    case RemoveRecord => st.(runners := st.runners - {c.name})
    case CountRetry(_) =>
      if !st.IsPending(c.job) then st
      else
        var p := st.pending[c.job.value];
        st.(pending := st.pending[c.job.value := p.(retries := p.retries + 1)])
    case ReadFailed(_, _) => st
    case WriteFailed(list, _) =>
      if !st.IsPending(c.job) then st
      else st.(pending := st.pending[c.job.value := st.pending[c.job.value].(failedAgents := list)])
    case DropJob => if c.job.None? then st else st.(pending := st.pending - {c.job.value})
    case GiveUp => if c.job.None? then st else st.(pending := st.pending - {c.job.value})
  }

  function GivingUp(last: bool): seq<Action> { if last then [GiveUp] else [] }

  /** What a failure that is being counted still takes after `action`. */
  function Follow(st: Stores, c: Case, action: Action): (r: seq<Action>)
    ensures |r| <= 1 && forall a :: a in r ==> a.Unfinished()
  {
    match action
    case CountRetry(blamed) =>
      if !st.IsPending(c.job) then []
      else
        var last := st.pending[c.job.value].retries + 1 >= MAX_RETRIES;
        if blamed.Some? then [ReadFailed(blamed.value, last)] else GivingUp(last)
    case ReadFailed(agent, last) =>
      if !st.IsPending(c.job) || agent in st.pending[c.job.value].failedAgents then GivingUp(last)
      else [WriteFailed(st.pending[c.job.value].failedAgents + [agent], last)]
    case WriteFailed(_, last) => GivingUp(last)
    case _ => []
  }

  /** What is left to do after the first of `todo`. */
  function Left(st: Stores, c: Case, todo: seq<Action>): seq<Action>
    requires todo != []
  {
    Follow(st, c, todo[0]) + todo[1..]
  }

  function Charges(job: Option<JobKey>, agent: string): seq<Action> {
    if job.Some? then [CountRetry(Some(agent))] else []
  }

  /** What the forge says about a job after its runner finished. */
  datatype JobCheck = StillQueued | Done | Unknown

  /** An agent's answer to CreateRunner; `NoResponse` is a timeout or a lost agent. */
  datatype Response = Accepted | Rejected | Succeeded(check: JobCheck) | RunnerFailed | Unexpected | NoResponse

  predicate Fails(response: Response) { response in {RunnerFailed, Unexpected, NoResponse} }

  function CommandProgram(c: Case, response: Response): seq<Action> {
    match response
    case Accepted => []
    case Rejected => [Release, RemoveRecord]
    case Succeeded(check) => if check == Done then [Release, DropJob, RemoveRecord] else [Release, RemoveRecord]
    case RunnerFailed => [Release] + Charges(c.job, c.agent) + [RemoveRecord]
    case Unexpected => [Release, RemoveRecord] + Charges(c.job, c.agent)
    case NoResponse => [Release, RemoveRecord] + Charges(c.job, c.agent)
  }

  datatype EventKind = Unspecified | Started | RunCompleted | RunFailed | Destroyed

  predicate Terminal(kind: EventKind) { kind in {RunCompleted, RunFailed, Destroyed} }

  /** What is remembered of idle teardowns and drains, until a restart. */
  datatype Memory = Memory(tearingDown: set<string>, tornDown: set<string>, draining: set<string>)

  /** What an event means for a runner that has a record. */
  function EventProgram(mem: Memory, c: Case, kind: EventKind, check: JobCheck): seq<Action> {
    if !Terminal(kind) then []
    else if c.name in mem.tearingDown then [Release, RemoveRecord]
    else if c.name in mem.tornDown then []
    else if kind == RunCompleted && check == Done then [Release, DropJob, RemoveRecord]
    else if kind == RunCompleted then [Release, RemoveRecord]
    else [Release] + Charges(c.job, c.agent) + [RemoveRecord]
  }

  function AfterEvent(mem: Memory, name: string, kind: EventKind, tracked: bool): Memory {
    if !Terminal(kind) then mem
    else if name in mem.tearingDown then
      mem.(tearingDown := mem.tearingDown - {name}, tornDown := mem.tornDown + {name})
    else if name in mem.tornDown || !tracked then mem
    else mem.(draining := mem.draining - {name})
  }

  /** Before a runner is made, its job is looked up once more: any answer but "queued" ends the attempt and drops the
      job, and a forge that can't be asked doesn't hold it up. */
  predicate NoLongerQueued(repository: Option<string>, status: Status) {
    repository.Some? && (status.NotFound? || (status.Found? && status.status != "queued"))
  }

  // ---------- the whole state ----------

  /** A pending job as listed. */
  datatype Listed = Listed(job: JobKey, retries: nat, repository: Option<string>)

  datatype Loop =
    | Idle
    /** Going through the runners found to be idle, or to drain */
    | Surveying(names: set<string>)
    | Scanning(jobs: seq<Listed>)
    /** No runner was found for `wanted`, whose creation has begun */
    | Creating(wanted: Listed, rest: seq<Listed>)
    | Reserved(listed: Option<Listed>, agent: string, name: string, rest: seq<Listed>)
    /** A creation that came to nothing is being undone */
    | Undoing(case_: Case, todo: seq<Action>, rest: seq<Listed>)
    /** An event is being handled */
    | Handling(case_: Case, todo: seq<Action>)

  /** A spawned command task; `plan` is None until the agent has answered, or the time for that is over. */
  datatype Task = Task(case_: Case, plan: Option<seq<Action>>)

  /** How often failures were to be counted, by runner, and how often the job had left the queue by then. */
  datatype Tally = Tally(tries: map<string, nat>, misses: map<string, nat>) {
    function Tries(name: string): nat { if name in tries then tries[name] else 0 }

    function Misses(name: string): nat { if name in misses then misses[name] else 0 }

    function Try(name: string, hit: bool): Tally {
      Tally(tries[name := Tries(name) + 1], if hit then misses else misses[name := Misses(name) + 1])
    }
  }

  /**
   What the code doesn't keep. `madeFor`: the agent each runner name was made for. `events` and `commands`: the
   failures counted on account of a runner's events and of its command. `spared`: runners torn down for idling, unless
   a restart forgot that while their record stood, and those whose completion was handled. `recounted`: runners whose
   record was still there at a restart though a failure of theirs had been counted. `recovered`: those whose record
   recovery removed. `blamed`: for each pending job, the agents blamed for its retries. `overdue`: jobs that were at
   the limit and not given up when the coordinator restarted.
   */
  datatype History = History(
    madeFor: map<string, string>, events: Tally, commands: Tally, spared: set<string>, recounted: set<string>,
    recovered: set<string>, blamed: map<JobKey, seq<Option<string>>>, overdue: set<JobKey>)

  datatype State = State(st: Stores, tasks: map<string, Task>, loop: Loop, mem: Memory, past: History)

  /** How `create_runner_on_demand` finds an agent: none, refused before or at the reservation, or reserved. */
  datatype Attempt = NoAgent | Refused | Given(agent: string, name: string)

  datatype Step =
    | StartScan(jobs: seq<Listed>)
    | Look(backingOff: bool)
    | Try(attempt: Attempt)
    | PoolReserve(agent: string, name: string)
    /** The forge's answer about the job, and whether it registers a runner */
    | Launch(status: Status, registered: bool)
    | TakeEvent(agent: string, name: string, kind: EventKind, check: JobCheck)
    | GoOn
    | Survey(forgotten: set<string>)
    | TearDownIdle(name: string)
    | DrainSent(name: string)
    | EndSurvey
    | Respond(name: string, response: Response)
    | TaskStep(name: string)
    | AddJob(job: JobKey, repository: Option<string>, now: int)
    | RemoveJob(job: JobKey)
    /** Its VM was reported, or the agent went away */
    | SlotTaken(slot: Slot)
    /** Reservations of an agent that are old enough, against the runners recorded for it when they were last listed */
    | ReconcileSlots(agent: string, recorded: set<string>, aged: set<string>)
    | RecoveryRemoves(name: string)
    /** The stores are kept, all else is lost */
    | Restart

  predicate IsListed(st: Stores, l: Listed) {
    && l.job in st.pending
    && l.retries == st.pending[l.job].retries && l.repository == st.pending[l.job].repository
  }

  predicate Enabled(s: State, step: Step) {
    match step
    case StartScan(jobs) =>
      s.loop.Idle? && forall l :: l in jobs ==> IsListed(s.st, l)
    case Look(_) => s.loop.Scanning?
    case Try(attempt) =>
      s.loop.Creating? && (attempt.Given? ==> attempt.name !in s.past.madeFor && attempt.name != "")
    case PoolReserve(_, name) => s.loop.Idle? && name !in s.past.madeFor && name != ""
    case Launch(_, _) => s.loop.Reserved?
    case TakeEvent(agent, name, _, _) =>
      s.loop.Idle? && (name in s.st.runners ==> s.st.runners[name].agent == agent)
    case GoOn => s.loop.Handling? || s.loop.Undoing?
    case Survey(_) => s.loop.Idle?
    case TearDownIdle(name) => s.loop.Surveying? && name in s.loop.names
    case DrainSent(name) => s.loop.Surveying? && name in s.loop.names
    case EndSurvey => s.loop.Surveying?
    case Respond(name, _) => name in s.tasks && s.tasks[name].plan.None?
    case TaskStep(name) => name in s.tasks && s.tasks[name].plan.Some? && s.tasks[name].plan.value != []
    case AddJob(_, _, _) => true
    case RemoveJob(_) => true
    case SlotTaken(_) => true
    case ReconcileSlots(_, _, _) => true
    case RecoveryRemoves(name) => name in s.st.runners
    case Restart => true
  }

  /** `process_pending_jobs` looks at the next listed job. */
  function LookAt(s: State, listed: Listed, rest: seq<Listed>, backingOff: bool): State {
    if listed.retries >= MAX_RETRIES then
      s.(st := s.st.(pending := s.st.pending - {listed.job}), loop := Scanning(rest))
    else if backingOff || s.st.HasRunnerFor(listed.job) then s.(loop := Scanning(rest))
    else s.(loop := Creating(listed, rest))
  }

  function Reserve(s: State, listed: Option<Listed>, agent: string, name: string, rest: seq<Listed>): State {
    s.(st := s.st.(slots := s.st.slots + {Slot(agent, name)}), loop := Reserved(listed, agent, name, rest),
       past := s.past.(madeFor := s.past.madeFor[name := agent]))
  }

  function JobOf(listed: Option<Listed>): Option<JobKey> { if listed.Some? then Some(listed.value.job) else None }

  /** From the reservation to the runner record and its command task, or back. */
  function Finish(s: State, listed: Option<Listed>, agent: string, name: string, rest: seq<Listed>,
                  status: Status, registered: bool): State {
    var c := Case(name, agent, JobOf(listed));
    if listed.Some? && NoLongerQueued(listed.value.repository, status) then
      s.(loop := Undoing(c, [Release, DropJob], rest))
    else if !registered then
      s.(loop := Undoing(c, [Release] + if listed.Some? then [CountRetry(None)] else [], rest))
    else
      s.(st := s.st.(runners := s.st.runners[name := Runner(agent, c.job)]), tasks := s.tasks[name := Task(c, None)],
         loop := Scanning(rest))
  }

  /** An event reaches the fleet loop. For a runner without a record it changes nothing but the memory. */
  function Take(s: State, agent: string, name: string, kind: EventKind, check: JobCheck): State {
    if name == "" then s
    else
      var tracked := name in s.st.runners;
      var s' := s.(mem := AfterEvent(s.mem, name, kind, tracked));
      if !tracked then s'
      else
        var c := Case(name, agent, s.st.runners[name].job);
        var todo := EventProgram(s.mem, c, kind, check);
        if todo == [] then s'
        else
          s'.(loop := Handling(c, todo),
              past := if kind == RunCompleted then s.past.(spared := s.past.spared + {name}) else s.past)
  }

  /** A failure is counted: to whom it is put down, and whether its job was still there. */
  function Blame(past: History, st: Stores, c: Case, action: Action): History {
    if !action.CountRetry? || !st.IsPending(c.job) then past
    else
      var before := if c.job.value in past.blamed then past.blamed[c.job.value] else [];
      past.(blamed := past.blamed[c.job.value := before + [action.blamed]])
  }

  function LoopNext(s: State): State
    requires Enabled(s, GoOn)
  {
    if s.loop.todo == [] then s.(loop := if s.loop.Handling? then Idle else Scanning(s.loop.rest))
    else
      var c, action := s.loop.case_, s.loop.todo[0];
      var past := Blame(s.past, s.st, c, action);
      s.(st := Perform(s.st, c, action), loop := s.loop.(todo := Left(s.st, c, s.loop.todo)),
         past := if s.loop.Handling? && action.CountRetry?
                 then past.(events := past.events.Try(c.name, s.st.IsPending(c.job))) else past)
  }

  function TaskNext(s: State, name: string): State
    requires Enabled(s, TaskStep(name))
  {
    var Task(c, plan) := s.tasks[name];
    var action := plan.value[0];
    var past := Blame(s.past, s.st, c, action);
    s.(st := Perform(s.st, c, action), tasks := s.tasks[name := Task(c, Some(Left(s.st, c, plan.value)))],
       past := if action.CountRetry? then past.(commands := past.commands.Try(c.name, s.st.IsPending(c.job))) else past)
  }

  function OverLimit(pending: map<JobKey, Pending>): set<JobKey> {
    set j | j in pending && pending[j].retries >= MAX_RETRIES
  }

  function Restarted(s: State): State {
    State(s.st.(slots := {}), map[], Idle, Memory({}, {}, {}),
          s.past.(spared := s.past.spared - s.st.runners.Keys,
                  recounted := s.past.recounted + s.past.events.tries.Keys * s.st.runners.Keys,
                  overdue := OverLimit(s.st.pending)))
  }

  function Act(s: State, step: Step): State
    requires Enabled(s, step)
  {
    match step
    case StartScan(jobs) => s.(loop := Scanning(jobs))
    case Look(backingOff) =>
      if s.loop.jobs == [] then s.(loop := Idle) else LookAt(s, s.loop.jobs[0], s.loop.jobs[1..], backingOff)
    case Try(attempt) =>
      (match attempt
       case NoAgent => s.(loop := Scanning(s.loop.rest))
       case Refused => s.(loop := Undoing(Case("", "", Some(s.loop.wanted.job)), [CountRetry(None)], s.loop.rest))
       case Given(agent, name) => Reserve(s, Some(s.loop.wanted), agent, name, s.loop.rest))
    case PoolReserve(agent, name) => Reserve(s, None, agent, name, [])
    case Launch(status, registered) =>
      Finish(s, s.loop.listed, s.loop.agent, s.loop.name, s.loop.rest, status, registered)
    case TakeEvent(agent, name, kind, check) => Take(s, agent, name, kind, check)
    case GoOn => LoopNext(s)
    case Survey(forgotten) =>
      s.(mem := s.mem.(tearingDown := s.mem.tearingDown * s.st.runners.Keys, tornDown := s.mem.tornDown - forgotten),
         loop := Surveying(s.st.runners.Keys))
    case TearDownIdle(name) =>
      s.(mem := s.mem.(tearingDown := s.mem.tearingDown + {name}),
         past := s.past.(spared := s.past.spared + {name}))
    case DrainSent(name) => s.(mem := s.mem.(draining := s.mem.draining + {name}))
    case EndSurvey => s.(loop := Idle)
    case Respond(name, response) =>
      var c := s.tasks[name].case_;
      s.(tasks := s.tasks[name := Task(c, Some(CommandProgram(c, response)))])
    case TaskStep(name) => TaskNext(s, name)
    case AddJob(job, repository, now) =>
      if job in s.st.pending then s
      else
        s.(st := s.st.(pending := s.st.pending[job := Pending(0, [], repository, now)]),
           past := s.past.(blamed := s.past.blamed[job := []]))
    case RemoveJob(job) => s.(st := s.st.(pending := s.st.pending - {job}))
    case SlotTaken(slot) => s.(st := s.st.(slots := s.st.slots - {slot}))
    case ReconcileSlots(agent, recorded, aged) =>
      var stale := set x | x in s.st.slots && x.agent == agent && x.runner !in recorded && x.runner in aged;
      s.(st := s.st.(slots := s.st.slots - stale))
    case RecoveryRemoves(name) =>
      s.(st := s.st.(runners := s.st.runners - {name}), past := s.past.(recovered := s.past.recovered + {name}))
    case Restart => Restarted(s)
  }

  /** A job that has left the queue is no longer overdue. */
  function Next(s: State, step: Step): State
    requires Enabled(s, step)
  {
    var s' := Act(s, step);
    s'.(past := s'.past.(overdue := s'.past.overdue * s'.st.pending.Keys))
  }

  /** A coordinator with an empty database. */
  predicate Init(s: State) {
    && s.st == Stores(map[], map[], {}) && s.tasks == map[] && s.loop == Idle
    && s.past == History(map[], Tally(map[], map[]), Tally(map[], map[]), {}, {}, {}, map[], {})
  }

  // ---------- runs ----------

  predicate Legal(s: State, steps: seq<Step>)
    decreases |steps|
  {
    steps == [] || (Enabled(s, steps[0]) && Legal(Next(s, steps[0]), steps[1..]))
  }

  function Run(s: State, steps: seq<Step>): State
    requires Legal(s, steps)
    decreases |steps|
  {
    if steps == [] then s else Run(Next(s, steps[0]), steps[1..])
  }

  lemma {:induction false} RunConcat(s: State, first: seq<Step>, second: seq<Step>)
    requires Legal(s, first) && Legal(Run(s, first), second)
    ensures Legal(s, first + second) && Run(s, first + second) == Run(Run(s, first), second)
    decreases |first|
  {
    if first == [] {
      assert first + second == second;
    } else {
      assert (first + second)[1..] == first[1..] + second;
      RunConcat(Next(s, first[0]), first[1..], second);
    }
  }

  lemma RunOne(s: State, step: Step)
    requires Enabled(s, step)
    ensures Legal(s, [step]) && Run(s, [step]) == Next(s, step)
  {
    assert [step][1..] == [];
  }

  /** The state before step `k` of a run, or after all of them. */
  function At(s: State, steps: seq<Step>, k: nat): State
    requires Legal(s, steps) && k <= |steps|
    decreases |steps|
  {
    if k == 0 then s else At(Next(s, steps[0]), steps[1..], k - 1)
  }

  lemma RunSnoc(s: State, steps: seq<Step>, step: Step)
    requires Legal(s, steps) && Enabled(Run(s, steps), step)
    ensures Legal(s, steps + [step]) && Run(s, steps + [step]) == Next(Run(s, steps), step)
  {
    RunOne(Run(s, steps), step);
    RunConcat(s, steps, [step]);
  }

  ghost predicate Reaches(s: State, s': State) {
    exists steps :: Legal(s, steps) && Run(s, steps) == s'
  }

  lemma ReachesItself(s: State)
    ensures Reaches(s, s)
  {
    assert Run(s, []) == s;
  }

  lemma ReachesNext(s: State, s': State, step: Step)
    requires Reaches(s, s') && Enabled(s', step)
    ensures Reaches(s, Next(s', step))
  {
    var steps :| Legal(s, steps) && Run(s, steps) == s';
    RunOne(s', step);
    RunConcat(s, steps, [step]);
  }

  function Empty(): (s: State)
    ensures Init(s)
  {
    State(Stores(map[], map[], {}), map[], Idle, Memory({}, {}, {}),
          History(map[], Tally(map[], map[]), Tally(map[], map[]), {}, {}, {}, map[], {}))
  }
}
