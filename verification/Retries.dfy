/**
 The retries of a pending job (kuiper-forge/src/pending_jobs.rs, fleet.rs), with counting a failure, remembering the
 agent to blame and giving the job up being store calls of their own, between which anyone can act.
 */
module Retries {
  import opened Common
  import opened Forge
  import opened Lifecycle
  import C = Charges

  /** Who may be dealing with a failure: the fleet loop, and the command task of each runner. */
  datatype Worker = FleetLoop | Command(name: string)

  function Plan(s: State, w: Worker): seq<Action> {
    match w
    case FleetLoop => if s.loop.Handling? || s.loop.Undoing? then s.loop.todo else []
    case Command(n) => if n in s.tasks && s.tasks[n].plan.Some? then s.tasks[n].plan.value else []
  }

  function CaseOf(s: State, w: Worker): Case {
    match w
    case FleetLoop => if s.loop.Handling? || s.loop.Undoing? then s.loop.case_ else Case("", "", None)
    case Command(n) => if n in s.tasks then s.tasks[n].case_ else Case("", "", None)
  }

  /** `w` has counted a failure of `job` and isn't done with it. */
  predicate Busy(s: State, w: Worker, job: JobKey) {
    CaseOf(s, w).job == Some(job) && Plan(s, w) != [] && Plan(s, w)[0].Unfinished()
  }

  /** `w` is about to give `job` up. */
  predicate Ending(s: State, w: Worker, job: JobKey) {
    Busy(s, w, job) && Plan(s, w)[0].EndsInGivingUp()
  }

  /** Only what is done next can be unfinished. */
  ghost predicate OnlyFirstUnfinished(s: State) {
    (forall w, i :: 0 < i < |Plan(s, w)| ==> !Plan(s, w)[i].Unfinished()) && NewNames(s)
  }

  predicate NewNames(s: State) {
    s.tasks.Keys <= s.past.madeFor.Keys
    && (s.loop.Reserved? ==> s.loop.name in s.past.madeFor && s.loop.name !in s.tasks)
  }

  /** Each retry is put down to somebody. */
  predicate AllBlamed(s: State) {
    forall j :: j in s.st.pending ==> j in s.past.blamed && |s.past.blamed[j]| == s.st.pending[j].retries
  }

  predicate WritesDistinct(todo: seq<Action>) {
    todo != [] && todo[0].WriteFailed? ==> todo[0].list != [] && NoDuplicates(todo[0].list)
  }

  ghost predicate ListsDistinct(s: State) {
    && (forall j :: j in s.st.pending ==> NoDuplicates(s.st.pending[j].failedAgents))
    && (forall w :: WritesDistinct(Plan(s, w)))
  }

  /** A job at the limit is about to be given up, or was when the coordinator restarted. */
  ghost predicate LimitEnds(s: State) {
    && (forall j :: j in OverLimit(s.st.pending) ==> j in s.past.overdue || exists w :: Ending(s, w, j))
    && s.past.overdue <= OverLimit(s.st.pending)
  }

  ghost predicate Inv(s: State) {
    OnlyFirstUnfinished(s) && AllBlamed(s) && ListsDistinct(s) && LimitEnds(s)
  }

  /** Whose turn a step is: that worker does the first thing it has planned. */
  function Turn(s: State, step: Step): Option<Worker> {
    if step.GoOn? && Plan(s, FleetLoop) != [] then Some(FleetLoop)
    else if step.TaskStep? then Some(Command(step.name))
    else None
  }

  /** Taking a turn does the first thing planned, to the stores and to the plan. */
  lemma TurnDoes(s: State, w: Worker, step: Step)
    requires Enabled(s, step) && Turn(s, step) == Some(w)
    ensures Plan(s, w) != []
    ensures var s' := Next(s, step);
            && s'.st == Perform(s.st, CaseOf(s, w), Plan(s, w)[0])
            && Plan(s', w) == Left(s.st, CaseOf(s, w), Plan(s, w)) && CaseOf(s', w) == CaseOf(s, w)
            && (forall v :: v != w ==> Plan(s', v) == Plan(s, v) && CaseOf(s', v) == CaseOf(s, v))
            && s'.past.blamed == Blame(s.past, s.st, CaseOf(s, w), Plan(s, w)[0]).blamed
            && s'.past.overdue == s.past.overdue * s'.st.pending.Keys
            && s'.loop.Reserved? == s.loop.Reserved? && (s.loop.Reserved? ==> s'.loop == s.loop)
            && s'.tasks.Keys == s.tasks.Keys
  {
  }

  predicate SamePlan(s: State, s': State, w: Worker) {
    Plan(s', w) == Plan(s, w) && (Plan(s, w) != [] ==> CaseOf(s', w) == CaseOf(s, w))
  }

  predicate NothingUnfinished(todo: seq<Action>) { forall a :: a in todo ==> !a.Unfinished() }

  /** Other steps leave plans alone, except that they may begin one or end an empty one. */
  lemma OthersLeavePlans(s: State, step: Step)
    requires Enabled(s, step) && Turn(s, step).None? && !step.Restart? && OnlyFirstUnfinished(s)
    ensures var s' := Next(s, step);
            forall w :: SamePlan(s, s', w) || (Plan(s, w) == [] && NothingUnfinished(Plan(s', w)))
  {
  }

  /** They may drop jobs, and add ones with a clean record. */
  predicate NothingCounted(s: State, s': State) {
    && (forall j :: j in s'.st.pending ==>
          if j in s.st.pending
          then s'.st.pending[j] == s.st.pending[j]
               && (j in s.past.blamed ==> j in s'.past.blamed && s'.past.blamed[j] == s.past.blamed[j])
          else s'.st.pending[j].retries == 0 && s'.st.pending[j].failedAgents == []
               && j in s'.past.blamed && s'.past.blamed[j] == [])
    && s'.past.overdue == s.past.overdue * s'.st.pending.Keys
  }

  lemma OthersCountNothing(s: State, step: Step)
    requires Enabled(s, step) && Turn(s, step).None? && !step.Restart?
    ensures NothingCounted(s, Next(s, step))
    ensures forall j :: j in Next(s, step).st.pending && j !in s.st.pending ==> step.AddJob? && step.job == j
  {
    if step.Look? || step.Try? || step.Launch? {
      CreatingCountsNothing(s, step);
    }
  }

  lemma CreatingCountsNothing(s: State, step: Step)
    requires Enabled(s, step) && (step.Look? || step.Try? || step.Launch?)
    ensures NothingCounted(s, Next(s, step)) && Next(s, step).st.pending.Keys <= s.st.pending.Keys
  {
  }

  lemma OnlyFirstUnfinishedKept(s: State, step: Step)
    requires OnlyFirstUnfinished(s) && Enabled(s, step)
    ensures OnlyFirstUnfinished(Next(s, step))
  {
    NewNamesKept(s, step);
    if Turn(s, step).Some? {
      var w := Turn(s, step).value;
      TurnDoes(s, w, step);
      OnlyFirstLeft(s.st, CaseOf(s, w), Plan(s, w));
    } else if !step.Restart? {
      OthersLeavePlans(s, step);
    }
  }

  lemma NewNamesKept(s: State, step: Step)
    requires NewNames(s) && Enabled(s, step)
    ensures NewNames(Next(s, step))
  {
  }

  lemma OnlyFirstLeft(st: Stores, c: Case, todo: seq<Action>)
    requires todo != [] && forall i :: 0 < i < |todo| ==> !todo[i].Unfinished()
    ensures forall i :: 0 < i < |Left(st, c, todo)| ==> !Left(st, c, todo)[i].Unfinished()
    ensures Left(st, c, todo) != [] && Left(st, c, todo)[0].Unfinished() ==>
              Follow(st, c, todo[0]) == [Left(st, c, todo)[0]]
    ensures Follow(st, c, todo[0]) != [] ==> Left(st, c, todo)[0] == Follow(st, c, todo[0])[0]
  {
    var follow, rest := Follow(st, c, todo[0]), todo[1..];
    assert forall i :: 0 <= i < |rest| ==> rest[i] == todo[i + 1];
    assert follow == [] ==> follow + rest == rest;
  }

  lemma AllBlamedKept(s: State, step: Step)
    requires AllBlamed(s) && Enabled(s, step)
    ensures AllBlamed(Next(s, step))
  {
    if Turn(s, step).Some? {
      TurnDoes(s, Turn(s, step).value, step);
    } else if !step.Restart? {
      OthersCountNothing(s, step);
    }
  }

  lemma ListsDistinctKept(s: State, step: Step)
    requires OnlyFirstUnfinished(s) && ListsDistinct(s) && Enabled(s, step)
    ensures ListsDistinct(Next(s, step))
  {
    if Turn(s, step).Some? {
      ListsDistinctKeptByTurn(s, Turn(s, step).value, step);
    } else if !step.Restart? {
      ListsDistinctKeptOtherwise(s, step);
    }
  }

  lemma ListsDistinctKeptOtherwise(s: State, step: Step)
    requires OnlyFirstUnfinished(s) && ListsDistinct(s) && Enabled(s, step) && Turn(s, step).None? && !step.Restart?
    ensures ListsDistinct(Next(s, step))
  {
    var s' := Next(s, step);
    OthersCountNothing(s, step);
    OthersLeavePlans(s, step);
    forall w ensures WritesDistinct(Plan(s', w)) {
      assert WritesDistinct(Plan(s, w));
      assert SamePlan(s, s', w) || NothingUnfinished(Plan(s', w));
      assert Plan(s', w) != [] ==> Plan(s', w)[0] in Plan(s', w);
    }
  }

  lemma ListsDistinctKeptByTurn(s: State, w: Worker, step: Step)
    requires OnlyFirstUnfinished(s) && ListsDistinct(s) && Enabled(s, step) && Turn(s, step) == Some(w)
    ensures ListsDistinct(Next(s, step))
  {
    var s', c, todo := Next(s, step), CaseOf(s, w), Plan(s, w);
    TurnDoes(s, w, step);
    OnlyFirstLeft(s.st, c, todo);
    assert WritesDistinct(todo);
    FollowIsDistinct(s.st, c, todo[0]);
    assert WritesDistinct(Plan(s', w));
    forall v ensures WritesDistinct(Plan(s', v)) {
      assert WritesDistinct(Plan(s, v));
    }
  }

  lemma FollowIsDistinct(st: Stores, c: Case, action: Action)
    requires forall j :: j in st.pending ==> NoDuplicates(st.pending[j].failedAgents)
    ensures WritesDistinct(Follow(st, c, action))
  {
    if action.ReadFailed? && st.IsPending(c.job) {
      var failed := st.pending[c.job.value].failedAgents;
      if action.agent !in failed {
        AppendNoDuplicates(failed, action.agent);
      }
    }
  }

  lemma LimitEndsKept(s: State, step: Step)
    requires Inv(s) && Enabled(s, step)
    ensures LimitEnds(Next(s, step))
  {
    if Turn(s, step).Some? {
      LimitEndsKeptByTurn(s, Turn(s, step).value, step);
    } else if !step.Restart? {
      LimitEndsKeptOtherwise(s, step);
    }
  }

  lemma LimitEndsKeptOtherwise(s: State, step: Step)
    requires Inv(s) && Enabled(s, step) && Turn(s, step).None? && !step.Restart?
    ensures LimitEnds(Next(s, step))
  {
    var s' := Next(s, step);
    OthersCountNothing(s, step);
    OthersLeavePlans(s, step);
    forall j | j in OverLimit(s'.st.pending) ensures j in s'.past.overdue || exists w :: Ending(s', w, j) {
      assert j in OverLimit(s.st.pending);
      if j !in s'.past.overdue {
        var w :| Ending(s, w, j);
        assert SamePlan(s, s', w);
        assert Ending(s', w, j);
      }
    }
  }

  lemma LimitEndsKeptByTurn(s: State, w: Worker, step: Step)
    requires Inv(s) && Enabled(s, step) && Turn(s, step) == Some(w)
    ensures LimitEnds(Next(s, step))
  {
    var s' := Next(s, step);
    TurnDoes(s, w, step);
    var c, action := CaseOf(s, w), Plan(s, w)[0];
    OnlyFirstLeft(s.st, c, Plan(s, w));
    forall j | j in OverLimit(s'.st.pending) ensures j in s'.past.overdue || exists v :: Ending(s', v, j) {
      if j in OverLimit(s.st.pending) && j !in s'.past.overdue {
        var v :| Ending(s, v, j);
        assert Ending(s', v, j);
      } else if j !in s'.past.overdue {
        assert c.job == Some(j) && action.CountRetry?;
        assert Ending(s', w, j);
      }
    }
  }

  lemma NextInv(s: State, step: Step)
    requires Inv(s) && Enabled(s, step)
    ensures Inv(Next(s, step))
  {
    OnlyFirstUnfinishedKept(s, step);
    AllBlamedKept(s, step);
    ListsDistinctKept(s, step);
    LimitEndsKept(s, step);
  }

  lemma {:induction false} RunInv(s: State, steps: seq<Step>)
    requires Inv(s) && Legal(s, steps)
    ensures Inv(Run(s, steps))
    decreases |steps|
  {
    if steps != [] {
      NextInv(s, steps[0]);
      RunInv(Next(s, steps[0]), steps[1..]);
    }
  }

  /** At every moment, for every pending job: its retries are the failures put down to somebody, no agent is on its
      list twice, and unless somebody is about to give it up, it is at the limit exactly if the coordinator restarted
      when that was so. */
  lemma {:induction false} RetriesAreAccounted(s: State, steps: seq<Step>, job: JobKey)
    requires Init(s) && Legal(s, steps) && job in Run(s, steps).st.pending
    ensures var s' := Run(s, steps);
            var p := s'.st.pending[job];
            && job in s'.past.blamed && p.retries == |s'.past.blamed[job]|
            && NoDuplicates(p.failedAgents)
            && ((forall w :: !Ending(s', w, job)) ==> (p.retries >= MAX_RETRIES <==> job in s'.past.overdue))
  {
    RunInv(s, steps);
  }

  /** From the state before step `k` on, the job never left the queue. */
  predicate StaysQueued(s: State, steps: seq<Step>, k: nat, job: JobKey)
    requires Legal(s, steps)
  {
    forall j :: k <= j <= |steps| ==> job in At(s, steps, j).st.pending
  }

  predicate FindsOverLimit(s: State, step: Step, job: JobKey) {
    step.Restart? && job in OverLimit(s.st.pending)
  }

  /** A restart found the job at the limit, and it hasn't left the queue since. */
  lemma {:induction false} OverdueMeans(s: State, steps: seq<Step>, job: JobKey)
    requires Inv(s) && Legal(s, steps)
    ensures job in Run(s, steps).past.overdue <==>
            || (job in s.past.overdue && StaysQueued(s, steps, 0, job))
            || exists k :: 0 <= k < |steps| && FindsOverLimit(At(s, steps, k), steps[k], job)
                           && StaysQueued(s, steps, k, job)
    decreases |steps|
  {
    if steps != [] {
      var s', rest := Next(s, steps[0]), steps[1..];
      NextInv(s, steps[0]);
      OverdueMeans(s', rest, job);
      assert At(s, steps, 0) == s;
      assert forall k :: 0 < k <= |steps| ==> At(s, steps, k) == At(s', rest, k - 1);
      forall i | 0 <= i <= |rest| ensures StaysQueued(s, steps, i + 1, job) <==> StaysQueued(s', rest, i, job) {
        StaysQueuedLater(s, steps, i, job);
      }
      OverdueMeansFirst(s, steps[0], job);
      assert StaysQueued(s, steps, 0, job) <==> job in s.st.pending && StaysQueued(s, steps, 1, job);
      assert StaysQueued(s, steps, 1, job) ==> job in At(s, steps, 1).st.pending;
      assert At(s, steps, 1) == At(s', rest, 0) == s';
      assert FindsOverLimit(At(s, steps, 0), steps[0], job) <==> FindsOverLimit(s, steps[0], job);
      if k :| 0 <= k < |rest| && FindsOverLimit(At(s', rest, k), rest[k], job) && StaysQueued(s', rest, k, job) {
        assert FindsOverLimit(At(s, steps, k + 1), steps[k + 1], job);
      }
      if k :| 0 < k < |steps| && FindsOverLimit(At(s, steps, k), steps[k], job) && StaysQueued(s, steps, k, job) {
        assert FindsOverLimit(At(s', rest, k - 1), rest[k - 1], job);
      }
    }
  }

  lemma StaysQueuedLater(s: State, steps: seq<Step>, i: nat, job: JobKey)
    requires Legal(s, steps) && steps != [] && i < |steps|
    ensures StaysQueued(s, steps, i + 1, job) <==> StaysQueued(Next(s, steps[0]), steps[1..], i, job)
  {
    var s', rest := Next(s, steps[0]), steps[1..];
    assert forall j :: 0 < j <= |steps| ==> At(s, steps, j) == At(s', rest, j - 1);
    if StaysQueued(s, steps, i + 1, job) {
      forall j | i <= j <= |rest| ensures job in At(s', rest, j).st.pending {
        assert job in At(s, steps, j + 1).st.pending;
      }
    }
  }

  lemma OverdueMeansFirst(s: State, step: Step, job: JobKey)
    requires Enabled(s, step) && s.past.overdue <= OverLimit(s.st.pending)
    ensures job in Next(s, step).past.overdue <==>
            job in Next(s, step).st.pending && (job in s.past.overdue || FindsOverLimit(s, step, job))
  {
    if !step.Restart? {
      OverdueIsKept(s, step);
    }
  }

  lemma OverdueIsKept(s: State, step: Step)
    requires Enabled(s, step) && !step.Restart?
    ensures Act(s, step).past.overdue == s.past.overdue
  {
  }

  // ---------- jobs that come back while a failure is being dealt with ----------

  /** A job enters the queue while a failure of it from before is still being dealt with. */
  ghost predicate ComesTooEarly(s: State, step: Step) {
    step.AddJob? && step.job !in s.st.pending && exists w :: Busy(s, w, step.job)
  }

  ghost predicate NoneTooEarly(s: State, steps: seq<Step>)
    requires Legal(s, steps)
    decreases |steps|
  {
    steps != [] ==> !ComesTooEarly(s, steps[0]) && NoneTooEarly(Next(s, steps[0]), steps[1..])
  }

  predicate Listable(list: seq<string>, blamed: seq<Option<string>>) {
    forall a :: a in list ==> Some(a) in blamed
  }

  /** What is still to be done about a failure belongs to the job as it is queued now. */
  predicate Fits(action: Action, p: Pending, blamed: seq<Option<string>>) {
    && (action.ReadFailed? ==> Some(action.agent) in blamed)
    && (action.WriteFailed? ==> Listable(action.list, blamed))
    && (action.EndsInGivingUp() ==> p.retries >= MAX_RETRIES)
  }

  ghost predicate Clean(s: State) {
    && (forall j :: j in s.st.pending && j in s.past.blamed ==>
          Listable(s.st.pending[j].failedAgents, s.past.blamed[j]))
    && (forall w, j :: Busy(s, w, j) && j in s.st.pending && j in s.past.blamed ==>
          Fits(Plan(s, w)[0], s.st.pending[j], s.past.blamed[j]))
  }

  lemma CleanKept(s: State, step: Step)
    requires Inv(s) && Clean(s) && Enabled(s, step) && !ComesTooEarly(s, step)
    ensures Clean(Next(s, step))
  {
    if Turn(s, step).Some? {
      CleanKeptByTurn(s, Turn(s, step).value, step);
    } else if !step.Restart? {
      CleanKeptOtherwise(s, step);
    }
  }

  lemma CleanKeptOtherwise(s: State, step: Step)
    requires Inv(s) && Clean(s) && Enabled(s, step) && !ComesTooEarly(s, step) && Turn(s, step).None? && !step.Restart?
    ensures Clean(Next(s, step))
  {
    var s' := Next(s, step);
    OthersCountNothing(s, step);
    OthersLeavePlans(s, step);
    forall w, j | Busy(s', w, j) && j in s'.st.pending && j in s'.past.blamed
      ensures Fits(Plan(s', w)[0], s'.st.pending[j], s'.past.blamed[j])
    {
      assert Plan(s', w)[0] in Plan(s', w);
      assert SamePlan(s, s', w);
      assert Busy(s, w, j);
      assert j in s.st.pending;
    }
  }

  lemma CleanKeptByTurn(s: State, w: Worker, step: Step)
    requires Inv(s) && Clean(s) && Enabled(s, step) && Turn(s, step) == Some(w)
    ensures Clean(Next(s, step))
  {
    var s' := Next(s, step);
    TurnDoes(s, w, step);
    var c, todo := CaseOf(s, w), Plan(s, w);
    OnlyFirstLeft(s.st, c, todo);
    forall j | j in s'.st.pending && j in s'.past.blamed
      ensures Listable(s'.st.pending[j].failedAgents, s'.past.blamed[j])
    {
      TurnOnJob(s, w, s', j);
    }
    forall v, j | Busy(s', v, j) && j in s'.st.pending && j in s'.past.blamed
      ensures Fits(Plan(s', v)[0], s'.st.pending[j], s'.past.blamed[j])
    {
      TurnOnJob(s, w, s', j);
      if v != w {
        assert Busy(s, v, j);
      }
    }
  }

  /** What a turn leaves of one job. */
  lemma TurnOnJob(s: State, w: Worker, s': State, j: JobKey)
    requires AllBlamed(s) && Clean(s) && Plan(s, w) != []
    requires var c, action := CaseOf(s, w), Plan(s, w)[0];
             s'.st == Perform(s.st, c, action) && s'.past.blamed == Blame(s.past, s.st, c, action).blamed
    requires j in s'.st.pending && j in s'.past.blamed
    ensures j in s.st.pending && Listable(s'.st.pending[j].failedAgents, s'.past.blamed[j])
    ensures forall a :: Fits(a, s.st.pending[j], s.past.blamed[j]) ==> Fits(a, s'.st.pending[j], s'.past.blamed[j])
    ensures CaseOf(s, w).job == Some(j) ==>
              forall a :: a in Follow(s.st, CaseOf(s, w), Plan(s, w)[0]) ==>
                Fits(a, s'.st.pending[j], s'.past.blamed[j])
  {
    var c, action := CaseOf(s, w), Plan(s, w)[0];
    assert forall b :: b in s.past.blamed[j] ==> b in s'.past.blamed[j];
    assert Listable(s.st.pending[j].failedAgents, s.past.blamed[j]);
    if c.job == Some(j) && action.Unfinished() {
      assert Busy(s, w, j);
    }
  }

  lemma {:induction false} RunClean(s: State, steps: seq<Step>)
    requires Inv(s) && Clean(s) && Legal(s, steps) && NoneTooEarly(s, steps)
    ensures Inv(Run(s, steps)) && Clean(Run(s, steps))
    decreases |steps|
  {
    if steps != [] {
      NextInv(s, steps[0]);
      CleanKept(s, steps[0]);
      RunClean(Next(s, steps[0]), steps[1..]);
    }
  }

  /** More agents are on the job's list than it has retries, or it is being given up before the limit. */
  ghost predicate Wronged(s: State, job: JobKey) {
    && job in s.st.pending
    && (|s.st.pending[job].failedAgents| > s.st.pending[job].retries
        || (s.st.pending[job].retries < MAX_RETRIES && exists w :: Ending(s, w, job)))
  }

  lemma CleanWrongsNobody(s: State, job: JobKey)
    requires Inv(s) && Clean(s)
    ensures !Wronged(s, job)
  {
    if job in s.st.pending {
      var p, blamed := s.st.pending[job], s.past.blamed[job];
      forall w | Ending(s, w, job) ensures p.retries >= MAX_RETRIES {
        assert Busy(s, w, job);
      }
      var listed := seq(|p.failedAgents|, i requires 0 <= i < |p.failedAgents| => Some(p.failedAgents[i]));
      NoLonger(listed, blamed);
    }
  }

  /** If no job enters the queue while a failure of it from before is being dealt with, no pending job has more agents
      on its list than retries, and none is given up before the limit. */
  lemma {:induction false} NobodyIsWronged(s: State, steps: seq<Step>, job: JobKey)
    requires Init(s) && Legal(s, steps) && NoneTooEarly(s, steps)
    ensures !Wronged(Run(s, steps), job)
  {
    RunClean(s, steps);
    CleanWrongsNobody(Run(s, steps), job);
  }

  function StepOf(w: Worker): Step {
    match w
    case FleetLoop => GoOn
    case Command(n) => TaskStep(n)
  }

  ghost predicate CanBeWronged(s: State, job: JobKey) {
    exists steps :: Legal(s, steps) && NoneTooEarly(s, steps) && Wronged(Run(s, steps), job)
  }

  /** And that is exactly when: a job added while somebody is still at a failure of it from before can be wronged by
      them, and one added at any other time can't. */
  lemma {:induction false} AddedIsWrongedIffTooEarly(s: State, steps: seq<Step>, job: JobKey,
                                                     repository: Option<string>, now: int)
    requires Init(s) && Legal(s, steps) && NoneTooEarly(s, steps) && job !in Run(s, steps).st.pending
    ensures var s' := Run(s, steps);
            CanBeWronged(Next(s', AddJob(job, repository, now)), job) <==> exists w :: Busy(s', w, job)
  {
    RunClean(s, steps);
    var s' := Run(s, steps);
    var added := Next(s', AddJob(job, repository, now));
    NextInv(s', AddJob(job, repository, now));
    if w :| Busy(s', w, job) {
      OthersLeavePlans(s', AddJob(job, repository, now));
      assert SamePlan(s', added, w);
      AddedIsWronged(added, w, job);
    } else {
      CleanKept(s', AddJob(job, repository, now));
      forall more | Legal(added, more) && NoneTooEarly(added, more) ensures !Wronged(Run(added, more), job) {
        RunClean(added, more);
        CleanWrongsNobody(Run(added, more), job);
      }
    }
  }

  lemma AddedIsWronged(s: State, w: Worker, job: JobKey)
    requires Inv(s) && Busy(s, w, job)
    requires job in s.st.pending && s.st.pending[job].retries == 0 && s.st.pending[job].failedAgents == []
    ensures CanBeWronged(s, job)
  {
    var c, action := CaseOf(s, w), Plan(s, w)[0];
    if action.EndsInGivingUp() {
      assert Ending(s, w, job);
      WrongedAfter(s, [], job);
    } else {
      var s1 := Next(s, StepOf(w));
      TurnDoes(s, w, StepOf(w));
      RunOne(s, StepOf(w));
      assert WritesDistinct(Plan(s, w));
      if action.WriteFailed? {
        WrongedAfter(s, [StepOf(w)], job);
      } else {
        assert Plan(s1, w)[0] == WriteFailed([action.agent], false);
        TurnDoes(s1, w, StepOf(w));
        RunOne(s1, StepOf(w));
        RunConcat(s, [StepOf(w)], [StepOf(w)]);
        WrongedAfter(s, [StepOf(w)] + [StepOf(w)], job);
      }
    }
  }

  lemma WrongedAfter(s: State, steps: seq<Step>, job: JobKey)
    requires Legal(s, steps) && Wronged(Run(s, steps), job) && forall step :: step in steps ==> !step.AddJob?
    ensures CanBeWronged(s, job)
  {
    NothingAdded(s, steps);
  }

  lemma {:induction false} NothingAdded(s: State, steps: seq<Step>)
    requires Legal(s, steps) && forall step :: step in steps ==> !step.AddJob?
    ensures NoneTooEarly(s, steps)
    decreases |steps|
  {
    if steps != [] {
      assert steps[0] in steps;
      NothingAdded(Next(s, steps[0]), steps[1..]);
    }
  }

  // ---------- that it happens ----------

  lemma AddsOnceIsNotTooEarly(steps: seq<Step>)
    requires Legal(Empty(), steps) && C.AddsOnce(steps)
    ensures NoneTooEarly(Empty(), steps)
  {
    assert forall w :: Plan(Empty(), w) == [];
    forall step | step in steps[1..] ensures !step.AddJob? {
      var i :| 0 <= i < |steps[1..]| && steps[1..][i] == step;
      assert steps[i + 1] == step;
    }
    NothingAdded(Next(Empty(), steps[0]), steps[1..]);
  }

  /** A command times out and its failure is counted, but the job leaves the queue before the agent is remembered. If it
      comes back now, it can be wronged. */
  lemma AddedCanBeWronged(job: JobKey, agent: string, name: string, repository: Option<string>, now: int)
    requires name != ""
    ensures exists steps :: Legal(Empty(), steps) && NoneTooEarly(Empty(), steps)
              && job !in Run(Empty(), steps).st.pending && Busy(Run(Empty(), steps), Command(name), job)
              && CanBeWronged(Next(Run(Empty(), steps), AddJob(job, repository, now)), job)
  {
    var c := Case(name, agent, Some(job));
    var running := C.RunningIsReached(job, agent, name);
    var counted := FailureHalfDone(running, c);
    RunSnoc(Empty(), counted, RemoveJob(job));
    var steps := counted + [RemoveJob(job)];
    AddsOnceIsNotTooEarly(steps);
    assert Busy(Run(Empty(), steps), Command(name), job);
    AddedIsWrongedIffTooEarly(Empty(), steps, job, repository, now);
  }

  lemma FailureHalfDone(before: seq<Step>, c: Case) returns (steps: seq<Step>)
    requires Legal(Empty(), before) && C.AddsOnce(before) && C.Running(Run(Empty(), before), c)
    ensures Legal(Empty(), steps) && C.AddsOnce(steps)
    ensures var s := Run(Empty(), steps);
            c.name in s.tasks && s.tasks[c.name] == Task(c, Some([ReadFailed(c.agent, false)]))
  {
    var s0 := Run(Empty(), before);
    var turn := TaskStep(c.name);
    RunSnoc(Empty(), before, Respond(c.name, NoResponse));
    var s1 := Next(s0, Respond(c.name, NoResponse));
    assert s1.tasks[c.name].plan.value == [Release, RemoveRecord, CountRetry(Some(c.agent))];
    var s2 := Next(s1, turn);
    assert s2.tasks[c.name].plan.value == [RemoveRecord, CountRetry(Some(c.agent))];
    var s3 := Next(s2, turn);
    assert s3.tasks[c.name].plan.value == [CountRetry(Some(c.agent))];
    var s4 := Next(s3, turn);
    assert s4.tasks[c.name].plan.value == [ReadFailed(c.agent, false)];
    var answered := before + [Respond(c.name, NoResponse)];
    C.RunThree(s1, turn, turn, turn);
    RunConcat(Empty(), answered, [turn, turn, turn]);
    steps := answered + [turn, turn, turn];
  }
}
