/** How often one runner costs its job a retry: on account of its events, and on account of its command. */
module Charges {
  import opened Common
  import opened Forge
  import opened Lifecycle

  /** A failure is still to be counted. */
  predicate OpenTry(todo: seq<Action>) { exists a :: a in todo && a.CountRetry? }

  predicate OpenEvent(s: State, name: string) {
    s.loop.Handling? && s.loop.case_.name == name && OpenTry(s.loop.todo)
  }

  predicate OpenCommand(s: State, name: string) {
    name in s.tasks && s.tasks[name].plan.Some? && OpenTry(s.tasks[name].plan.value)
  }

  // ---------- at most once ----------

  /** What is left of an event's program. */
  predicate EventTodo(todo: seq<Action>) {
    todo != [] ==>
      && |todo| <= 3 && todo[|todo| - 1] == RemoveRecord
      && (|todo| == 3 ==> todo[0] == Release)
      && (|todo| > 1 ==> todo[|todo| - 2] != RemoveRecord)
  }

  predicate HandledWithoutTry(s: State, n: string) {
    s.loop.Handling? && s.loop.case_.name == n && s.loop.todo != [] && !OpenTry(s.loop.todo)
  }

  /** No event will be counted against `n` any more: it has no record left, or its teardown is remembered, or its record
      is about to go. */
  predicate Settled(s: State, n: string) {
    n !in s.st.runners || n in s.mem.tearingDown || HandledWithoutTry(s, n)
  }

  predicate Counted(s: State, n: string) { n in s.past.events.tries && n !in s.past.recounted }

  predicate EventsOnce(s: State) {
    && (forall n :: n in s.past.events.tries ==> n in s.past.madeFor)
    && (forall n :: n in s.past.events.tries && Counted(s, n) ==>
          s.past.events.tries[n] == 1 && (n !in s.st.runners || HandledWithoutTry(s, n)))
    && (forall n :: n in s.past.spared ==> n in s.past.madeFor && !Counted(s, n) && Settled(s, n))
    && (s.loop.Handling? ==>
          && s.loop.case_.name in s.past.madeFor && EventTodo(s.loop.todo)
          && (OpenTry(s.loop.todo) ==> !Counted(s, s.loop.case_.name) && s.loop.case_.name !in s.past.spared))
    && (s.loop.Reserved? ==> s.loop.name in s.past.madeFor && s.loop.name !in s.st.runners
                             && s.loop.name !in s.past.events.tries && s.loop.name !in s.past.spared)
    && (s.loop.Surveying? ==> forall n :: n in s.loop.names ==> n in s.past.madeFor && !Counted(s, n))
    && (forall n :: n in s.st.runners ==> n in s.past.madeFor)
  }

  /** What is left of a command's program: at most one step of it isn't housekeeping. */
  predicate CommandTodo(todo: seq<Action>) {
    forall i, j :: 0 <= i < j < |todo| && !todo[i].Housekeeping() ==> todo[j].Housekeeping()
  }

  predicate CommandsOnce(tasks: map<string, Task>, tally: Tally) {
    && (forall n :: n in tasks ==> tasks[n].case_.name == n)
    && (forall n :: n in tasks && tasks[n].plan.Some? ==> CommandTodo(tasks[n].plan.value))
    && (forall n :: n in tally.tries ==> tally.tries[n] == 1)
    && (forall n :: n in tally.tries && n in tasks ==> tasks[n].plan.Some? && !OpenTry(tasks[n].plan.value))
  }

  predicate NamesKnown(s: State) {
    && (forall n :: n in s.tasks ==> n in s.past.madeFor)
    && (forall n :: n in s.past.commands.tries ==> n in s.past.madeFor)
    && (s.loop.Reserved? ==> s.loop.name in s.past.madeFor && s.loop.name !in s.tasks
                             && s.loop.name !in s.past.commands.tries)
  }

  predicate Inv(s: State) {
    && EventsOnce(s) && CommandsOnce(s.tasks, s.past.commands) && NamesKnown(s)
    && Fair(s.past.events) && Fair(s.past.commands)
  }

  predicate Fair(tally: Tally) {
    forall n :: n in tally.misses ==> n in tally.tries && tally.misses[n] <= tally.tries[n]
  }

  predicate Creates(step: Step) {
    step.StartScan? || step.Look? || step.Try? || step.PoolReserve? || step.Launch?
  }

  lemma EventsOnceKept(s: State, step: Step)
    requires EventsOnce(s) && Enabled(s, step)
    ensures EventsOnce(Next(s, step))
  {
    if Creates(step) {
      EventsOnceKeptCreating(s, step);
    } else if step.GoOn? {
      EventsOnceKeptHandling(s);
    } else if step.TakeEvent? {
      EventsOnceKeptTaking(s, step);
    } else if step.TaskStep? {
      EventsOnceKeptByTask(s, step.name);
    }
  }

  lemma EventsOnceKeptCreating(s: State, step: Step)
    requires EventsOnce(s) && Enabled(s, step) && Creates(step)
    ensures EventsOnce(Next(s, step))
  {
  }

  lemma EventsOnceKeptTaking(s: State, step: Step)
    requires EventsOnce(s) && Enabled(s, step) && step.TakeEvent?
    ensures EventsOnce(Next(s, step))
  {
  }

  lemma EventsOnceKeptHandling(s: State)
    requires EventsOnce(s) && Enabled(s, GoOn)
    ensures EventsOnce(Next(s, GoOn))
  {
    if s.loop.Handling? && s.loop.todo != [] {
      EventTodoLeft(s.st, s.loop.case_, s.loop.todo);
      EventsOnceKeptByAction(s, Left(s.st, s.loop.case_, s.loop.todo));
    }
  }

  lemma EventsOnceKeptByAction(s: State, left: seq<Action>)
    requires EventsOnce(s) && s.loop.Handling? && s.loop.todo != [] && left == Left(s.st, s.loop.case_, s.loop.todo)
    requires EventTodo(left)
    requires OpenTry(left) <==> OpenTry(s.loop.todo) && !s.loop.todo[0].CountRetry?
    requires left == [] <==> s.loop.todo == [RemoveRecord]
    ensures EventsOnce(Next(s, GoOn))
  {
    var c, action := s.loop.case_, s.loop.todo[0];
    assert action.CountRetry? ==> action in s.loop.todo;
    var s' := Next(s, GoOn);
    assert s'.loop == Handling(c, left);
    assert s'.past.spared == s.past.spared && s'.past.recounted == s.past.recounted && s'.mem == s.mem;
    assert s'.st.runners == if action.RemoveRecord? then s.st.runners - {c.name} else s.st.runners;
  }

  lemma EventTodoLeft(st: Stores, c: Case, todo: seq<Action>)
    requires todo != [] && EventTodo(todo)
    ensures var left := Left(st, c, todo);
            && EventTodo(left)
            && (OpenTry(left) <==> OpenTry(todo) && !todo[0].CountRetry?)
            && (left == [] <==> todo == [RemoveRecord])
  {
    OpenTryLeft(st, c, todo);
    var follow, rest := Follow(st, c, todo[0]), todo[1..];
    assert rest != [] ==> rest[|rest| - 1] == RemoveRecord;
  }

  lemma OpenTryLeft(st: Stores, c: Case, todo: seq<Action>)
    requires todo != []
    ensures OpenTry(Left(st, c, todo)) <==> OpenTry(todo[1..])
  {
    var follow, rest := Follow(st, c, todo[0]), todo[1..];
    assert forall a :: a in follow + rest <==> a in follow || a in rest;
    assert forall a :: a in follow ==> !a.CountRetry?;
  }

  lemma EventsOnceKeptByTask(s: State, name: string)
    requires EventsOnce(s) && Enabled(s, TaskStep(name))
    ensures EventsOnce(Next(s, TaskStep(name)))
  {
  }

  lemma CommandsOnceKept(s: State, step: Step)
    requires CommandsOnce(s.tasks, s.past.commands) && NamesKnown(s) && Enabled(s, step)
    ensures CommandsOnce(Next(s, step).tasks, Next(s, step).past.commands)
  {
    if step.TaskStep? {
      CommandsOnceKeptByTask(s, step.name);
    } else if step.Respond? {
      CommandsOnceKeptResponding(s, step.name, step.response);
    }
  }

  lemma CommandsOnceKeptResponding(s: State, name: string, response: Response)
    requires CommandsOnce(s.tasks, s.past.commands) && name in s.tasks && s.tasks[name].plan.None?
    ensures var c := s.tasks[name].case_;
            CommandsOnce(s.tasks[name := Task(c, Some(CommandProgram(c, response)))], s.past.commands)
  {
  }

  lemma CommandsOnceKeptByTask(s: State, name: string)
    requires CommandsOnce(s.tasks, s.past.commands) && Enabled(s, TaskStep(name))
    ensures var s' := TaskNext(s, name); CommandsOnce(s'.tasks, s'.past.commands)
  {
    var Task(c, plan) := s.tasks[name];
    CommandTodoLeft(s.st, c, plan.value);
    assert plan.value[0].CountRetry? ==> OpenTry(plan.value);
  }

  lemma CommandTodoLeft(st: Stores, c: Case, todo: seq<Action>)
    requires todo != [] && CommandTodo(todo)
    ensures CommandTodo(Left(st, c, todo))
    ensures OpenTry(Left(st, c, todo)) <==> OpenTry(todo) && !todo[0].CountRetry?
  {
    OpenTryLeft(st, c, todo);
    var follow := Follow(st, c, todo[0]);
    if follow != [] {
      ReplacedHead(todo, follow[0]);
      assert follow + todo[1..] == [follow[0]] + todo[1..];
    } else {
      assert follow + todo[1..] == todo[1..];
    }
  }

  lemma ReplacedHead(todo: seq<Action>, head: Action)
    requires todo != [] && CommandTodo(todo) && !todo[0].Housekeeping()
    ensures CommandTodo([head] + todo[1..])
  {
    forall j | 0 < j < |todo| ensures todo[j].Housekeeping() {}
  }

  lemma NamesKnownKept(s: State, step: Step)
    requires NamesKnown(s) && CommandsOnce(s.tasks, s.past.commands) && Enabled(s, step)
    ensures NamesKnown(Next(s, step))
  {
    if step.TaskStep? {
      NamesKnownKeptByTask(s, step.name);
    }
  }

  lemma NamesKnownKeptByTask(s: State, name: string)
    requires NamesKnown(s) && CommandsOnce(s.tasks, s.past.commands) && Enabled(s, TaskStep(name))
    ensures NamesKnown(Next(s, TaskStep(name)))
  {
  }

  lemma NextInv(s: State, step: Step)
    requires Inv(s) && Enabled(s, step)
    ensures Inv(Next(s, step))
  {
    EventsOnceKept(s, step);
    CommandsOnceKept(s, step);
    NamesKnownKept(s, step);
    FairKept(s, step);
  }

  lemma FairKept(s: State, step: Step)
    requires Fair(s.past.events) && Fair(s.past.commands) && Enabled(s, step)
    ensures Fair(Next(s, step).past.events) && Fair(Next(s, step).past.commands)
  {
  }

  lemma {:induction false} RunInv(s: State, steps: seq<Step>)
    requires Inv(s) && Legal(s, steps)
    ensures Inv(Run(s, steps))
    decreases |steps|
  {
    if steps != [] {
      NextInv(s, steps[0]);
      RunInv(Next(s, steps[0]), steps[1..]);
    }
  }

  /** However often its end is reported, a runner's events are counted once at most, and never once it was torn down
      for idling or its completion was handled, except after a restart that came before its record was removed. Its
      command is counted once at most. */
  lemma {:induction false} EachCountedAtMostOnce(s: State, steps: seq<Step>, name: string)
    requires Init(s) && Legal(s, steps)
    ensures var past := Run(s, steps).past;
            && (name !in past.recounted ==> past.events.Tries(name) <= 1)
            && (name !in past.recounted && name in past.spared ==> past.events.Tries(name) == 0)
            && past.commands.Tries(name) <= 1
  {
    RunInv(s, steps);
  }

  // ---------- what the history means ----------

  /** A failure of the runner was counted for an event, and a later restart found its record. */
  lemma {:induction false} RecountedMeans(s: State, steps: seq<Step>, name: string)
    requires Legal(s, steps)
    ensures name in Run(s, steps).past.recounted <==>
            || name in s.past.recounted
            || exists k :: 0 <= k < |steps| && FindsCounted(At(s, steps, k), steps[k], name)
    decreases |steps|
  {
    if steps != [] {
      RecountedMeans(Next(s, steps[0]), steps[1..], name);
      assert At(s, steps, 0) == s;
      assert forall k :: 0 < k < |steps| ==> At(s, steps, k) == At(Next(s, steps[0]), steps[1..], k - 1);
      if k :| 0 <= k < |steps[1..]| && FindsCounted(At(Next(s, steps[0]), steps[1..], k), steps[1..][k], name) {
        assert FindsCounted(At(s, steps, k + 1), steps[k + 1], name);
      }
    }
  }

  predicate FindsCounted(s: State, step: Step, name: string) {
    step.Restart? && name in s.past.events.tries && name in s.st.runners
  }

  /** The runner is torn down for idling, or its completion is taken up. */
  predicate Spares(s: State, step: Step, name: string) {
    || step == TearDownIdle(name)
    || (step.TakeEvent? && step.name == name && name != "" && step.kind == RunCompleted && name in s.st.runners
        && (name in s.mem.tearingDown || name !in s.mem.tornDown))
  }

  /** No restart from step `i` on found the runner's record. */
  predicate Undisturbed(s: State, steps: seq<Step>, i: nat, name: string)
    requires Legal(s, steps)
  {
    forall j :: i <= j < |steps| && steps[j].Restart? ==> name !in At(s, steps, j).st.runners
  }

  /** It was spared, and no restart has found its record since. */
  lemma {:induction false} SparedMeans(s: State, steps: seq<Step>, name: string)
    requires Legal(s, steps)
    ensures name in Run(s, steps).past.spared <==>
            || (name in s.past.spared && Undisturbed(s, steps, 0, name))
            || exists k :: 0 <= k < |steps| && Spares(At(s, steps, k), steps[k], name)
                           && Undisturbed(s, steps, k + 1, name)
    decreases |steps|
  {
    if steps != [] {
      var s', rest := Next(s, steps[0]), steps[1..];
      SparedMeans(s', rest, name);
      assert At(s, steps, 0) == s;
      assert forall k :: 0 < k < |steps| ==> At(s, steps, k) == At(s', rest, k - 1) && steps[k] == rest[k - 1];
      forall i | 0 <= i <= |rest| ensures Undisturbed(s, steps, i + 1, name) <==> Undisturbed(s', rest, i, name) {
        UndisturbedLater(s, steps, i, name);
      }
      SparedMeansFirst(s, steps[0], name);
      if k :| 0 <= k < |rest| && Spares(At(s', rest, k), rest[k], name) && Undisturbed(s', rest, k + 1, name) {
        assert Spares(At(s, steps, k + 1), steps[k + 1], name);
      }
      if k :| 0 < k < |steps| && Spares(At(s, steps, k), steps[k], name) && Undisturbed(s, steps, k + 1, name) {
        assert Spares(At(s', rest, k - 1), rest[k - 1], name);
      }
      assert Undisturbed(s, steps, 0, name) <==>
             !(steps[0].Restart? && name in s.st.runners) && Undisturbed(s, steps, 1, name);
    }
  }

  lemma UndisturbedLater(s: State, steps: seq<Step>, i: nat, name: string)
    requires Legal(s, steps) && steps != [] && i < |steps|
    ensures Undisturbed(s, steps, i + 1, name) <==> Undisturbed(Next(s, steps[0]), steps[1..], i, name)
  {
    var s', rest := Next(s, steps[0]), steps[1..];
    assert forall j :: 0 < j < |steps| ==> At(s, steps, j) == At(s', rest, j - 1) && steps[j] == rest[j - 1];
    if Undisturbed(s, steps, i + 1, name) {
      forall j | i <= j < |rest| && rest[j].Restart? ensures name !in At(s', rest, j).st.runners {
        assert steps[j + 1].Restart?;
      }
    }
  }

  lemma SparedMeansFirst(s: State, step: Step, name: string)
    requires Enabled(s, step)
    ensures name in Next(s, step).past.spared <==>
            || (name in s.past.spared && !(step.Restart? && name in s.st.runners))
            || Spares(s, step, name)
  {
  }

  // ---------- exactly how often ----------

  /** An event is taken that is to be counted: its runner has a record and a job, failed, and isn't being torn down. */
  predicate ChargingTake(s: State, step: Step, name: string) {
    && step.TakeEvent? && step.name == name && name != ""
    && name in s.st.runners && s.st.runners[name].job.Some?
    && step.kind in {RunFailed, Destroyed} && name !in s.mem.tearingDown && name !in s.mem.tornDown
  }

  /** The command of a runner made for a job fails. */
  predicate FailingResponse(s: State, step: Step, name: string) {
    && step.Respond? && step.name == name && Fails(step.response)
    && name in s.tasks && s.tasks[name].case_.job.Some?
  }

  function One(b: bool): nat { if b then 1 else 0 }

  function Takes(s: State, steps: seq<Step>, name: string): nat
    requires Legal(s, steps)
    decreases |steps|
  {
    if steps == [] then 0 else One(ChargingTake(s, steps[0], name)) + Takes(Next(s, steps[0]), steps[1..], name)
  }

  function Responses(s: State, steps: seq<Step>, name: string): nat
    requires Legal(s, steps)
    decreases |steps|
  {
    if steps == [] then 0 else One(FailingResponse(s, steps[0], name)) + Responses(Next(s, steps[0]), steps[1..], name)
  }

  /** Restarts that came before an event, or a command, was counted. */
  function LostEvents(s: State, steps: seq<Step>, name: string): nat
    requires Legal(s, steps)
    decreases |steps|
  {
    if steps == [] then 0
    else One(steps[0].Restart? && OpenEvent(s, name)) + LostEvents(Next(s, steps[0]), steps[1..], name)
  }

  function LostCommands(s: State, steps: seq<Step>, name: string): nat
    requires Legal(s, steps)
    decreases |steps|
  {
    if steps == [] then 0
    else One(steps[0].Restart? && OpenCommand(s, name)) + LostCommands(Next(s, steps[0]), steps[1..], name)
  }

  lemma EventCounts(s: State, step: Step, name: string)
    requires EventsOnce(s) && Enabled(s, step)
    ensures var s' := Next(s, step);
            s'.past.events.Tries(name) + One(OpenEvent(s', name)) + One(step.Restart? && OpenEvent(s, name))
            == s.past.events.Tries(name) + One(OpenEvent(s, name)) + One(ChargingTake(s, step, name))
  {
    if step.GoOn? {
      EventCountsHandling(s, name);
    } else if step.TakeEvent? {
      TakenIsOpen(s, step);
    }
  }

  lemma EventCountsHandling(s: State, name: string)
    requires EventsOnce(s) && Enabled(s, GoOn)
    ensures var s' := Next(s, GoOn);
            s'.past.events.Tries(name) + One(OpenEvent(s', name)) == s.past.events.Tries(name) + One(OpenEvent(s, name))
  {
    if s.loop.Handling? && s.loop.todo != [] {
      EventTodoLeft(s.st, s.loop.case_, s.loop.todo);
      assert s.loop.todo[0].CountRetry? ==> OpenTry(s.loop.todo);
    }
  }

  lemma TakenIsOpen(s: State, step: Step)
    requires Enabled(s, step) && step.TakeEvent?
    ensures OpenEvent(Next(s, step), step.name) <==> ChargingTake(s, step, step.name)
    ensures forall n :: n != step.name ==> !OpenEvent(Next(s, step), n)
  {
    if step.name != "" && step.name in s.st.runners {
      var c := Case(step.name, step.agent, s.st.runners[step.name].job);
      EventOpens(s.mem, c, step.kind, step.check);
    }
  }

  lemma EventOpens(mem: Memory, c: Case, kind: EventKind, check: JobCheck)
    ensures OpenTry(EventProgram(mem, c, kind, check)) <==>
            c.job.Some? && kind in {RunFailed, Destroyed} && c.name !in mem.tearingDown && c.name !in mem.tornDown
  {
    var todo := EventProgram(mem, c, kind, check);
    if c.job.Some? && kind in {RunFailed, Destroyed} && c.name !in mem.tearingDown && c.name !in mem.tornDown {
      assert todo[1].CountRetry?;
    }
  }

  lemma CommandOpens(c: Case, response: Response)
    ensures OpenTry(CommandProgram(c, response)) <==> c.job.Some? && Fails(response)
  {
    var todo := CommandProgram(c, response);
    if c.job.Some? && Fails(response) {
      assert todo[if response == RunnerFailed then 1 else 2].CountRetry?;
    }
  }

  lemma CommandCounts(s: State, step: Step, name: string)
    requires CommandsOnce(s.tasks, s.past.commands) && NamesKnown(s) && Enabled(s, step)
    ensures var s' := Next(s, step);
            s'.past.commands.Tries(name) + One(OpenCommand(s', name)) + One(step.Restart? && OpenCommand(s, name))
            == s.past.commands.Tries(name) + One(OpenCommand(s, name)) + One(FailingResponse(s, step, name))
  {
    if step.TaskStep? {
      CommandCountsByTask(s, step.name, name);
    } else if step.Respond? {
      CommandOpens(s.tasks[step.name].case_, step.response);
    }
  }

  lemma CommandCountsByTask(s: State, n: string, name: string)
    requires CommandsOnce(s.tasks, s.past.commands) && Enabled(s, TaskStep(n))
    ensures var s' := Next(s, TaskStep(n));
            s'.past.commands.Tries(name) + One(OpenCommand(s', name))
            == s.past.commands.Tries(name) + One(OpenCommand(s, name))
  {
    var Task(c, plan) := s.tasks[n];
    CommandTodoLeft(s.st, c, plan.value);
    assert plan.value[0].CountRetry? ==> OpenTry(plan.value);
  }

  /** What is counted, about to be counted or lost to a restart is exactly what was to be counted. */
  lemma {:induction false} CountsAreExact(s: State, steps: seq<Step>, name: string)
    requires Inv(s) && Legal(s, steps)
    ensures var s' := Run(s, steps);
            && s'.past.events.Tries(name) + One(OpenEvent(s', name)) + LostEvents(s, steps, name)
               == s.past.events.Tries(name) + One(OpenEvent(s, name)) + Takes(s, steps, name)
            && s'.past.commands.Tries(name) + One(OpenCommand(s', name)) + LostCommands(s, steps, name)
               == s.past.commands.Tries(name) + One(OpenCommand(s, name)) + Responses(s, steps, name)
    decreases |steps|
  {
    if steps != [] {
      EventCounts(s, steps[0], name);
      CommandCounts(s, steps[0], name);
      NextInv(s, steps[0]);
      CountsAreExact(Next(s, steps[0]), steps[1..], name);
    }
  }

  /** How many retries the runner cost its job: failures that were counted while the job was pending. */
  function Cost(past: History, name: string): int {
    past.events.Tries(name) - past.events.Misses(name) + past.commands.Tries(name) - past.commands.Misses(name)
  }

  // ---------- across restarts ----------

  /** Restarts that found the runner's record still there though a failure of it had been counted for an event. */
  function Recounts(s: State, steps: seq<Step>, name: string): nat
    requires Legal(s, steps)
    decreases |steps|
  {
    if steps == [] then 0
    else
      One(steps[0].Restart? && name in s.past.events.tries && name in s.st.runners)
      + Recounts(Next(s, steps[0]), steps[1..], name)
  }

  /** An event of the runner may still be counted. */
  predicate Countable(s: State, name: string) {
    (name in s.st.runners && !HandledWithoutTry(s, name)) || OpenEvent(s, name)
  }

  /** With `n` such restarts behind it. */
  predicate CountedWithin(s: State, name: string, n: nat) {
    s.past.events.Tries(name) <= n + One(!Countable(s, name))
  }

  lemma CountedWithinKept(s: State, step: Step, name: string, n: nat)
    requires EventsOnce(s) && CountedWithin(s, name, n) && Enabled(s, step)
    ensures CountedWithin(Next(s, step), name,
                          n + One(step.Restart? && name in s.past.events.tries && name in s.st.runners))
  {
    if step.GoOn? {
      CountedWithinKeptHandling(s, name, n);
    } else if step.TakeEvent? {
      TakenIsOpen(s, step);
    } else if step.Launch? {
      CountedWithinKeptLaunching(s, step, name, n);
    }
  }

  lemma CountedWithinKeptLaunching(s: State, step: Step, name: string, n: nat)
    requires EventsOnce(s) && CountedWithin(s, name, n) && Enabled(s, step) && step.Launch?
    ensures CountedWithin(Next(s, step), name, n)
  {
  }

  lemma CountedWithinKeptHandling(s: State, name: string, n: nat)
    requires EventsOnce(s) && CountedWithin(s, name, n) && Enabled(s, GoOn)
    ensures CountedWithin(Next(s, GoOn), name, n)
  {
    if s.loop.Handling? && s.loop.todo != [] {
      EventTodoLeft(s.st, s.loop.case_, s.loop.todo);
      assert s.loop.todo[0].CountRetry? ==> OpenTry(s.loop.todo);
    }
  }

  lemma {:induction false} RunCountedWithin(s: State, steps: seq<Step>, name: string, n: nat)
    requires Inv(s) && CountedWithin(s, name, n) && Legal(s, steps)
    ensures CountedWithin(Run(s, steps), name, n + Recounts(s, steps, name))
    decreases |steps|
  {
    if steps != [] {
      var restarted := steps[0].Restart? && name in s.past.events.tries && name in s.st.runners;
      CountedWithinKept(s, steps[0], name, n);
      NextInv(s, steps[0]);
      RunCountedWithin(Next(s, steps[0]), steps[1..], name, n + One(restarted));
    }
  }

  /** A command is answered once. */
  predicate Answered(s: State, name: string) {
    && name in s.past.madeFor && (name in s.tasks ==> s.tasks[name].plan.Some?)
    && !(s.loop.Reserved? && s.loop.name == name)
  }

  lemma {:induction false} AnsweredOnce(s: State, steps: seq<Step>, name: string)
    requires NamesKnown(s) && CommandsOnce(s.tasks, s.past.commands) && Legal(s, steps)
    ensures Responses(s, steps, name) <= One(!Answered(s, name))
    decreases |steps|
  {
    if steps != [] {
      NamesKnownKept(s, steps[0]);
      CommandsOnceKept(s, steps[0]);
      StaysAnswered(s, steps[0], name);
      AnsweredOnce(Next(s, steps[0]), steps[1..], name);
    }
  }

  lemma StaysAnswered(s: State, step: Step, name: string)
    requires NamesKnown(s) && Enabled(s, step)
    ensures Answered(s, name) ==> Answered(Next(s, step), name) && !FailingResponse(s, step, name)
    ensures FailingResponse(s, step, name) ==> Answered(Next(s, step), name)
  {
    if Creates(step) {
      StaysAnsweredCreating(s, step, name);
    }
  }

  lemma StaysAnsweredCreating(s: State, step: Step, name: string)
    requires NamesKnown(s) && Enabled(s, step) && Creates(step)
    ensures Answered(s, name) ==> Answered(Next(s, step), name)
  {
  }

  /** A count that finds the runner's job gone. */
  predicate MissesEvent(s: State, step: Step, name: string) {
    && step.GoOn? && s.loop.Handling? && s.loop.case_.name == name
    && s.loop.todo != [] && s.loop.todo[0].CountRetry? && !s.st.IsPending(s.loop.case_.job)
  }

  predicate MissesCommand(s: State, step: Step, name: string) {
    && step == TaskStep(name) && name in s.tasks && s.tasks[name].plan.Some? && s.tasks[name].plan.value != []
    && s.tasks[name].plan.value[0].CountRetry? && !s.st.IsPending(s.tasks[name].case_.job)
  }

  function MissedEvents(s: State, steps: seq<Step>, name: string): nat
    requires Legal(s, steps)
    decreases |steps|
  {
    if steps == [] then 0
    else One(MissesEvent(s, steps[0], name)) + MissedEvents(Next(s, steps[0]), steps[1..], name)
  }

  function MissedCommands(s: State, steps: seq<Step>, name: string): nat
    requires Legal(s, steps)
    decreases |steps|
  {
    if steps == [] then 0
    else One(MissesCommand(s, steps[0], name)) + MissedCommands(Next(s, steps[0]), steps[1..], name)
  }

  lemma {:induction false} MissesMean(s: State, steps: seq<Step>, name: string)
    requires CommandsOnce(s.tasks, s.past.commands) && NamesKnown(s) && Legal(s, steps)
    ensures Run(s, steps).past.events.Misses(name) == s.past.events.Misses(name) + MissedEvents(s, steps, name)
    ensures Run(s, steps).past.commands.Misses(name) == s.past.commands.Misses(name) + MissedCommands(s, steps, name)
    decreases |steps|
  {
    if steps != [] {
      NamesKnownKept(s, steps[0]);
      CommandsOnceKept(s, steps[0]);
      MissesMeanOne(s, steps[0], name);
      MissesMean(Next(s, steps[0]), steps[1..], name);
    }
  }

  lemma MissesMeanOne(s: State, step: Step, name: string)
    requires CommandsOnce(s.tasks, s.past.commands) && Enabled(s, step)
    ensures Next(s, step).past.events.Misses(name) == s.past.events.Misses(name) + One(MissesEvent(s, step, name))
    ensures Next(s, step).past.commands.Misses(name) == s.past.commands.Misses(name) + One(MissesCommand(s, step, name))
  {
  }

  /** What the runner's events cost its job: those that were to be counted, less those still open, lost to a restart, or
      counted when the job had left the queue. */
  function EventCost(s: State, steps: seq<Step>, name: string): int
    requires Legal(s, steps)
  {
    Takes(s, steps, name) - One(OpenEvent(Run(s, steps), name)) - LostEvents(s, steps, name)
    - MissedEvents(s, steps, name)
  }

  function CommandCost(s: State, steps: seq<Step>, name: string): int
    requires Legal(s, steps)
  {
    Responses(s, steps, name) - One(OpenCommand(Run(s, steps), name)) - LostCommands(s, steps, name)
    - MissedCommands(s, steps, name)
  }

  /** Over any run, restarts included: a runner's command costs its job one retry at most, and its events one more
      than the restarts that came between a count and the removal of the record. It costs two exactly if either each
      of the two kinds cost one, or two events did, which takes such a restart. */
  lemma {:induction false} RetriesOfARunner(s: State, steps: seq<Step>, name: string)
    requires Init(s) && Legal(s, steps)
    ensures var events, command := EventCost(s, steps, name), CommandCost(s, steps, name);
            && Cost(Run(s, steps).past, name) == events + command
            && 0 <= command <= 1 && Responses(s, steps, name) <= 1
            && 0 <= events <= 1 + Recounts(s, steps, name)
            && (Cost(Run(s, steps).past, name) == 2 <==> (events == 1 && command == 1) || (events == 2 && command == 0))
  {
    CountsAreExact(s, steps, name);
    MissesMean(s, steps, name);
    RunInv(s, steps);
    RunCountedWithin(s, steps, name, 0);
    AnsweredOnce(s, steps, name);
  }

  predicate NoRestart(steps: seq<Step>) { Restart !in steps }

  lemma {:induction false} NothingLostWithoutRestart(s: State, steps: seq<Step>, name: string)
    requires Legal(s, steps) && NoRestart(steps)
    ensures LostEvents(s, steps, name) == LostCommands(s, steps, name) == 0
    ensures Run(s, steps).past.recounted == s.past.recounted
    decreases |steps|
  {
    if steps != [] {
      assert steps[0] in steps;
      NothingLostWithoutRestart(Next(s, steps[0]), steps[1..], name);
    }
  }

  /** Between restarts, with nothing of it left to count, a runner costs its job two retries exactly if an event of it
      was taken that is to be counted, its command failed, and the job was still pending at both counts. It never
      costs more, and each of the two causes costs one or, if the job has left the queue, nothing. */
  lemma {:induction false} TwoRetriesIffBothFail(s: State, steps: seq<Step>, name: string)
    requires Init(s) && Legal(s, steps) && NoRestart(steps)
    requires !OpenEvent(Run(s, steps), name) && !OpenCommand(Run(s, steps), name)
    ensures var past := Run(s, steps).past;
            && Takes(s, steps, name) <= 1 && Responses(s, steps, name) <= 1
            && Cost(past, name) == Takes(s, steps, name) - past.events.Misses(name)
                                   + Responses(s, steps, name) - past.commands.Misses(name)
            && (Cost(past, name) == 2 <==>
                  && Takes(s, steps, name) == 1 && Responses(s, steps, name) == 1
                  && past.events.Misses(name) == past.commands.Misses(name) == 0)
  {
    RunInv(s, steps);
    CountsAreExact(s, steps, name);
    NothingLostWithoutRestart(s, steps, name);
    EachCountedAtMostOnce(s, steps, name);
  }

  // ---------- that it happens ----------

  /** A runner made for a job, whose command is still open. */
  predicate Running(s: State, c: Case) {
    && s.loop == Idle && s.tasks == map[c.name := Task(c, None)]
    && c.job.Some? && s.st.runners == map[c.name := Runner(c.agent, c.job)]
    && s.st.pending.Keys == {c.job.value} && s.st.pending[c.job.value].retries == 0
    && s.st.pending[c.job.value].failedAgents == []
    && s.mem == Memory({}, {}, {}) && s.past.events == s.past.commands == Tally(map[], map[])
    && s.past.spared == s.past.recounted == {}
  }

  /** Only the first step adds a job. */
  predicate AddsOnce(steps: seq<Step>) {
    steps != [] && forall i :: 0 < i < |steps| ==> !steps[i].AddJob?
  }

  lemma RunningIsReached(job: JobKey, agent: string, name: string) returns (steps: seq<Step>)
    requires name != ""
    ensures Legal(Empty(), steps) && Running(Run(Empty(), steps), Case(name, agent, Some(job))) && AddsOnce(steps)
    ensures Reaches(Empty(), Run(Empty(), steps))
  {
    var e, listed := Empty(), Listed(job, 0, None);
    var first := [AddJob(job, None, 0)];
    RunOne(e, first[0]);
    var s1 := Next(e, first[0]);
    RunSnoc(e, first, StartScan([listed]));
    var second := first + [StartScan([listed])];
    RunSnoc(e, second, Look(false));
    var third := second + [Look(false)];
    assert Run(e, third).loop == Creating(listed, []);
    steps := LaunchIsReached(third, listed, agent, name);
  }

  lemma LaunchIsReached(before: seq<Step>, listed: Listed, agent: string, name: string) returns (steps: seq<Step>)
    requires name != "" && Legal(Empty(), before) && AddsOnce(before)
    requires var s := Run(Empty(), before);
             && s.loop == Creating(listed, [])
             && s.st == Stores(map[listed.job := Pending(0, [], None, 0)], map[], {}) && s.tasks == map[]
             && s.past.madeFor == map[] && s.past.events == s.past.commands == Tally(map[], map[])
             && s.past.spared == s.past.recounted == {} && s.mem == Memory({}, {}, {}) && listed.repository == None
    ensures Legal(Empty(), steps) && AddsOnce(steps)
    ensures Running(Run(Empty(), steps), Case(name, agent, Some(listed.job)))
  {
    var s := Run(Empty(), before);
    RunThree(s, Try(Given(agent, name)), Launch(Failed, true), Look(false));
    var more := [Try(Given(agent, name)), Launch(Failed, true), Look(false)];
    RunConcat(Empty(), before, more);
    steps := before + more;
  }

  lemma RunThree(s: State, a: Step, b: Step, c: Step)
    requires Enabled(s, a) && Enabled(Next(s, a), b) && Enabled(Next(Next(s, a), b), c)
    ensures Legal(s, [a, b, c]) && Run(s, [a, b, c]) == Next(Next(Next(s, a), b), c)
  {
    RunOne(s, a);
    RunSnoc(s, [a], b);
    RunSnoc(s, [a] + [b], c);
    assert [a] + [b] + [c] == [a, b, c];
  }

  /** A command that times out and a runner that fails later do cost the job two retries. */
  lemma BothFailuresAreCounted(job: JobKey, agent: string, name: string)
    requires name != ""
    ensures exists s :: Reaches(Empty(), s) && job in s.st.pending && s.st.pending[job].retries == 2
                        && Cost(s.past, name) == 2
  {
    var steps := RunningIsReached(job, agent, name);
    var c, s0 := Case(name, agent, Some(job)), Run(Empty(), steps);
    var s1 := Next(s0, Respond(name, NoResponse));
    ReachesNext(Empty(), s0, Respond(name, NoResponse));
    assert CommandProgram(c, NoResponse) == [Release, RemoveRecord, CountRetry(Some(agent))];
    var s2 := EventIsCounted(s1, c);
    CommandIsCounted(s2, c);
  }

  lemma EventIsCounted(s: State, c: Case) returns (s': State)
    requires Reaches(Empty(), s) && s.loop == Idle && c.name != "" && c.job.Some?
    requires c.name in s.st.runners && s.st.runners[c.name] == Runner(c.agent, c.job)
    requires c.name !in s.mem.tearingDown && c.name !in s.mem.tornDown
    requires c.job.value in s.st.pending && s.st.pending[c.job.value].retries + 1 < MAX_RETRIES
    ensures Reaches(Empty(), s') && s'.tasks == s.tasks && s'.past.commands == s.past.commands
    ensures s'.st.runners == s.st.runners
    ensures c.job.value in s'.st.pending
            && s'.st.pending[c.job.value].retries == s.st.pending[c.job.value].retries + 1
    ensures s'.past.events.Tries(c.name) == s.past.events.Tries(c.name) + 1
    ensures s'.past.events.Misses(c.name) == s.past.events.Misses(c.name)
  {
    var taken := Next(s, TakeEvent(c.agent, c.name, RunFailed, Done));
    ReachesNext(Empty(), s, TakeEvent(c.agent, c.name, RunFailed, Done));
    assert taken.loop.todo == [Release, CountRetry(Some(c.agent)), RemoveRecord];
    var released := Next(taken, GoOn);
    ReachesNext(Empty(), taken, GoOn);
    assert released.loop.todo[0] == CountRetry(Some(c.agent));
    s' := Next(released, GoOn);
    ReachesNext(Empty(), released, GoOn);
  }

  /** Nor does it take a failing command: a restart between the count and the removal of the record lets a second
      event of the runner be counted. */
  lemma EventsAloneCostTwo(job: JobKey, agent: string, name: string)
    requires name != ""
    ensures exists s :: Reaches(Empty(), s) && job in s.st.pending && s.st.pending[job].retries == 2
              && Cost(s.past, name) == s.past.events.Tries(name) == 2 && s.past.commands.Tries(name) == 0
  {
    var steps := RunningIsReached(job, agent, name);
    var c, s0 := Case(name, agent, Some(job)), Run(Empty(), steps);
    var s1 := EventIsCounted(s0, c);
    var s2 := Next(s1, Restart);
    ReachesNext(Empty(), s1, Restart);
    var s3 := EventIsCounted(s2, c);
  }

  lemma CommandIsCounted(s: State, c: Case)
    requires Reaches(Empty(), s) && c.job.Some? && c.name in s.tasks
    requires s.tasks[c.name] == Task(c, Some([Release, RemoveRecord, CountRetry(Some(c.agent))]))
    requires c.job.value in s.st.pending && s.st.pending[c.job.value].retries == 1
    requires Cost(s.past, c.name) == 1
    ensures exists s' :: Reaches(Empty(), s') && c.job.value in s'.st.pending && s'.st.pending[c.job.value].retries == 2
                         && Cost(s'.past, c.name) == 2
  {
    var released := Next(s, TaskStep(c.name));
    ReachesNext(Empty(), s, TaskStep(c.name));
    assert released.tasks[c.name].plan.value == [RemoveRecord, CountRetry(Some(c.agent))];
    var removed := Next(released, TaskStep(c.name));
    ReachesNext(Empty(), released, TaskStep(c.name));
    assert removed.tasks[c.name].plan.value == [CountRetry(Some(c.agent))];
    var counted := Next(removed, TaskStep(c.name));
    ReachesNext(Empty(), removed, TaskStep(c.name));
    assert counted.st.pending[c.job.value].retries == 2 && Cost(counted.past, c.name) == 2;
  }

  /** A restart forgets idle teardowns: the runner's end is then counted as a failure. */
  lemma RestartForgetsTeardowns(job: JobKey, agent: string, name: string)
    requires name != ""
    ensures exists s, s' :: Reaches(Empty(), s) && name in s.mem.tearingDown && name in s.past.spared
              && Reaches(s, s') && s'.past.events.Tries(name) == 1
  {
    var steps := RunningIsReached(job, agent, name);
    var c, s0 := Case(name, agent, Some(job)), Run(Empty(), steps);
    var s1 := Next(s0, Survey({}));
    ReachesNext(Empty(), s0, Survey({}));
    var s2 := Next(s1, TearDownIdle(name));
    ReachesNext(Empty(), s1, TearDownIdle(name));
    ReachesItself(s2);
    var s3 := Next(s2, Restart);
    ReachesNext(s2, s2, Restart);
    FailureIsCounted(s2, s3, c);
  }

  lemma FailureIsCounted(s: State, s3: State, c: Case)
    requires Reaches(s, s3) && s3.loop == Idle && c.name != "" && c.job.Some?
    requires c.name in s3.st.runners && s3.st.runners[c.name] == Runner(c.agent, c.job)
    requires c.name !in s3.mem.tearingDown && c.name !in s3.mem.tornDown && s3.past.events.Tries(c.name) == 0
    ensures exists s' :: Reaches(s, s') && s'.past.events.Tries(c.name) == 1
  {
    var s4 := Next(s3, TakeEvent(c.agent, c.name, Destroyed, Done));
    ReachesNext(s, s3, TakeEvent(c.agent, c.name, Destroyed, Done));
    assert s4.loop.todo == [Release, CountRetry(Some(c.agent)), RemoveRecord];
    var s5 := Next(s4, GoOn);
    ReachesNext(s, s4, GoOn);
    assert s5.loop.todo[0] == CountRetry(Some(c.agent));
    var s6 := Next(s5, GoOn);
    ReachesNext(s, s5, GoOn);
    assert s6.past.events.Tries(c.name) == 1;
  }
}
