/**
 Draining the pool runners of agents marked unavailable (kuiper-forge/src/fleet.rs, github.rs, forgejo.rs), while their
 forge is free to register runners, hand out jobs and finish them between any two of the drain's steps.
 */
module Drain {
  import opened Common

  /** Seconds a runner may stay unregistered before it is destroyed anyway */
  const DRAIN_BOOT_GRACE: nat := 600

  datatype Removal = Removed | StillBusy | NotRegistered

  datatype DrainStep = Keep | Destroy

  function StepFor(removal: Removal, age: nat): DrainStep {
    match removal
    case Removed => Destroy
    case StillBusy => Keep
    case NotRegistered => if age < DRAIN_BOOT_GRACE then Keep else Destroy
  }

  datatype Kind = GitHub | Forgejo

  /** What the forge knows of a runner. `Left`: it did its job, or was removed. */
  datatype Registration = Booting | Waiting | Working | Left

  /** A runner's record. */
  datatype Record = Record(agent: string, created: nat, forJob: bool, kind: Kind)

  datatype Phase =
    | Resting
    /** Going through `names`, all of which were to be drained at `now` */
    | Going(names: seq<string>, now: nat)
    /** The forge listed the first of `names` as registered and idle */
    | Found(names: seq<string>, now: nat)
    | Deciding(removal: Removal, names: seq<string>, now: nat)

  datatype World = World(
    clock: nat,
    /** Every runner ever made; those in `tracked` still have their record */
    records: map<string, Record>,
    tracked: set<string>,
    forge: map<string, Registration>,
    unavailable: set<string>,
    sent: map<string, nat>,
    phase: Phase,
    destroyed: set<string>)

  /** Seconds before DestroyRunner is sent again */
  const DRAIN_DESTROY_RETRY: nat := 300

  predicate Drainable(w: World, name: string) {
    && name in w.tracked && name in w.records && !w.records[name].forJob && w.records[name].agent in w.unavailable
    && !(name in w.sent && w.clock - w.sent[name] < DRAIN_DESTROY_RETRY)
  }

  datatype Event =
    | Tick
    | Create(name: string, record: Record)
    | SetUnavailable(agents: set<string>)
    | Forget(name: string)
    /** The forge's own steps */
    | Register(name: string)
    | Assign(name: string)
    | Finish(name: string)
    /** The drain's */
    | Begin(names: seq<string>)
    | Look
    | Delete
    | Fail
    | Decide(delivered: bool)

  /** A runner registers within `bootLimit` of its record's creation or not at all. */
  predicate Enabled(w: World, e: Event, bootLimit: nat) {
    match e
    case Tick => true
    case Create(name, record) => name !in w.records && record.created == w.clock
    case SetUnavailable(_) => true
    case Forget(name) => true
    case Register(name) =>
      name in w.forge && w.forge[name].Booting? && name in w.records
      && w.clock < w.records[name].created + bootLimit
    case Assign(name) => name in w.forge && w.forge[name].Waiting?
    case Finish(name) => name in w.forge && w.forge[name].Working?
    case Begin(names) =>
      w.phase.Resting? && w.unavailable != {} && forall n :: n in names ==> Drainable(w, n)
    case Look => w.phase.Going?
    case Delete => w.phase.Found?
    case Fail => (w.phase.Going? || w.phase.Found?) && w.phase.names != []
    case Decide(_) => w.phase.Deciding?
  }

  /** `find_runner`, and on Forgejo the list of runners: one that is registered there was made for one job. */
  function LookUp(w: World, names: seq<string>, now: nat): Phase
    requires names != []
  {
    var name := names[0];
    if name !in w.forge || w.forge[name].Booting? || w.forge[name].Left? then Deciding(NotRegistered, names, now)
    else if w.forge[name].Working? then Deciding(StillBusy, names, now)
    else if name in w.records && w.records[name].kind == Forgejo then Deciding(StillBusy, names, now)
    else Found(names, now)
  }

  function Next(w: World, e: Event, bootLimit: nat): World
    requires Enabled(w, e, bootLimit)
  {
    match e
    case Tick => w.(clock := w.clock + 1)
    case Create(name, record) => 
      w.(records := w.records[name := record], tracked := w.tracked + {name}, forge := w.forge[name := Booting])
    case SetUnavailable(agents) => w.(unavailable := agents)
    case Forget(name) => w.(tracked := w.tracked - {name})
    case Register(name) => w.(forge := w.forge[name := Waiting])
    case Assign(name) => w.(forge := w.forge[name := Working])
    case Finish(name) => w.(forge := w.forge[name := Left])
    case Begin(names) => w.(phase := Going(names, w.clock))
    case Look =>
      if w.phase.names == [] then w.(phase := Resting) else w.(phase := LookUp(w, w.phase.names, w.phase.now))
    case Delete =>
      // the forge refuses to remove a runner that got a job since it was listed
      var Found(names, now) := w.phase;
      if names == [] then w.(phase := Resting)
      else if names[0] in w.forge && w.forge[names[0]].Waiting? then
        w.(forge := w.forge[names[0] := Left], phase := Deciding(Removed, names, now))
      else if names[0] in w.forge && w.forge[names[0]].Working? then w.(phase := Deciding(StillBusy, names, now))
      else w.(phase := Going(names[1..], now))
    case Fail => w.(phase := Going(w.phase.names[1..], w.phase.now))
    case Decide(delivered) =>
      var Deciding(removal, names, now) := w.phase;
      if names == [] then w.(phase := Resting)
      else if names[0] !in w.records || !delivered
           || StepFor(removal, Sub(now, w.records[names[0]].created)) == Keep then
        w.(phase := Going(names[1..], now))
      else
        w.(phase := Going(names[1..], now), destroyed := w.destroyed + {names[0]}, sent := w.sent[names[0] := w.clock])
  }

  /** It isn't running a job, and can't be given one any more. */
  predicate Useless(w: World, name: string, bootLimit: nat) {
    name in w.forge ==>
      || w.forge[name].Left?
      || (w.forge[name].Booting? && name in w.records && (w.clock >= w.records[name].created + bootLimit))
  }

  predicate Init(w: World) {
    w.records == map[] && w.tracked == {} && w.forge == map[] && w.sent == map[]
    && w.phase == Resting && w.destroyed == {}
  }

  predicate Inv(w: World, bootLimit: nat) {
    && w.forge.Keys == w.records.Keys
    && (forall n :: n in w.records ==> w.records[n].created <= w.clock)
    && (!w.phase.Resting? ==>
          w.phase.now <= w.clock && forall n :: n in w.phase.names ==> n in w.records && !w.records[n].forJob)
    && (w.phase.Deciding? && w.phase.names != [] ==> Judged(w, w.phase.names[0], bootLimit))
    && (forall n :: n in w.destroyed ==> n in w.records && !w.records[n].forJob && Useless(w, n, bootLimit))
  }

  /** What an answer of the forge says by the time it is acted upon. */
  predicate Judged(w: World, name: string, bootLimit: nat)
    requires w.phase.Deciding?
  {
    match w.phase.removal
    case Removed => Useless(w, name, bootLimit)
    case StillBusy => true
    case NotRegistered =>
      name in w.records && w.phase.now >= w.records[name].created + bootLimit ==> Useless(w, name, bootLimit)
  }

  predicate ByDrain(e: Event) { e.Begin? || e.Look? || e.Delete? || e.Fail? || e.Decide? }

  lemma NextInv(w: World, e: Event, bootLimit: nat)
    requires bootLimit <= DRAIN_BOOT_GRACE && Inv(w, bootLimit) && Enabled(w, e, bootLimit)
    ensures Inv(Next(w, e, bootLimit), bootLimit)
  {
    if ByDrain(e) {
      DrainKeepsInv(w, e, bootLimit);
    }
  }

  lemma DrainKeepsInv(w: World, e: Event, bootLimit: nat)
    requires bootLimit <= DRAIN_BOOT_GRACE && Inv(w, bootLimit) && Enabled(w, e, bootLimit) && ByDrain(e)
    ensures Inv(Next(w, e, bootLimit), bootLimit)
  {
    if e.Decide? {
      DecideKeepsInv(w, e.delivered, bootLimit);
    } else if e.Look? || e.Delete? {
      AskingKeepsInv(w, e, bootLimit);
    }
  }

  lemma DecideKeepsInv(w: World, delivered: bool, bootLimit: nat)
    requires bootLimit <= DRAIN_BOOT_GRACE && Inv(w, bootLimit) && w.phase.Deciding?
    ensures Inv(Next(w, Decide(delivered), bootLimit), bootLimit)
  {
  }

  lemma AskingKeepsInv(w: World, e: Event, bootLimit: nat)
    requires bootLimit <= DRAIN_BOOT_GRACE && Inv(w, bootLimit) && Enabled(w, e, bootLimit) && (e.Look? || e.Delete?)
    ensures Inv(Next(w, e, bootLimit), bootLimit)
  {
  }

  predicate Legal(w: World, events: seq<Event>, bootLimit: nat)
    decreases |events|
  {
    events == [] || (Enabled(w, events[0], bootLimit) && Legal(Next(w, events[0], bootLimit), events[1..], bootLimit))
  }

  function Run(w: World, events: seq<Event>, bootLimit: nat): World
    requires Legal(w, events, bootLimit)
    decreases |events|
  {
    if events == [] then w else Run(Next(w, events[0], bootLimit), events[1..], bootLimit)
  }

  lemma {:induction false} RunInv(w: World, events: seq<Event>, bootLimit: nat)
    requires bootLimit <= DRAIN_BOOT_GRACE && Inv(w, bootLimit) && Legal(w, events, bootLimit)
    ensures Inv(Run(w, events, bootLimit), bootLimit)
    ensures w.destroyed <= Run(w, events, bootLimit).destroyed
    decreases |events|
  {
    if events != [] {
      NextInv(w, events[0], bootLimit);
      RunInv(Next(w, events[0], bootLimit), events[1..], bootLimit);
    }
  }

  /** If runners register within the grace or not at all, a drain only destroys pool runners that aren't running a job,
      and none of them is ever given one. */
  lemma CutsNoJobShort(w: World, events: seq<Event>, later: seq<Event>, bootLimit: nat, name: string)
    requires bootLimit <= DRAIN_BOOT_GRACE && Init(w) && Legal(w, events, bootLimit)
    requires name in Run(w, events, bootLimit).destroyed && Legal(Run(w, events, bootLimit), later, bootLimit)
    ensures var w' := Run(Run(w, events, bootLimit), later, bootLimit);
            && name in w'.records && !w'.records[name].forJob
            && name in w'.forge && w'.forge[name] in {Booting, Left}
  {
    RunInv(w, events, bootLimit);
    RunInv(Run(w, events, bootLimit), later, bootLimit);
  }

  /** The grace can't be shorter: a runner that may register after it can be destroyed at work. */
  lemma LateRegistrationIsCutShort(w: World, name: string, bootLimit: nat)
    requires bootLimit > DRAIN_BOOT_GRACE && Inv(w, bootLimit) && w.phase.Resting?
    requires Drainable(w, name) && w.forge[name] == Booting && name !in w.sent
    requires w.clock == w.records[name].created + DRAIN_BOOT_GRACE
    ensures exists events :: Legal(w, events, bootLimit)
              && name in Run(w, events, bootLimit).destroyed
              && name in Run(w, events, bootLimit).forge && Run(w, events, bootLimit).forge[name] == Working
  {
    var w1 := Next(w, Begin([name]), bootLimit);
    var w2 := Next(w1, Look, bootLimit);
    assert w2 == w.(phase := Deciding(NotRegistered, [name], w.clock));
    LateStartIsCutShort(w2, name, bootLimit);
    var late := [Register(name), Assign(name), Decide(true)];
    RunsTo(w1, [Look] + late, bootLimit);
    RunsTo(w, [Begin([name])] + ([Look] + late), bootLimit);
  }

  lemma LateStartIsCutShort(w: World, name: string, bootLimit: nat)
    requires bootLimit > DRAIN_BOOT_GRACE && name in w.records && name in w.forge && w.forge[name] == Booting
    requires w.clock == w.records[name].created + DRAIN_BOOT_GRACE
    requires w.phase == Deciding(NotRegistered, [name], w.clock)
    ensures var late := [Register(name), Assign(name), Decide(true)];
            && Legal(w, late, bootLimit)
            && name in Run(w, late, bootLimit).destroyed
            && name in Run(w, late, bootLimit).forge && Run(w, late, bootLimit).forge[name] == Working
  {
    var w3 := Next(w, Register(name), bootLimit);
    var w4 := Next(w3, Assign(name), bootLimit);
    RunsTo(w4, [Decide(true)], bootLimit);
    RunsTo(w3, [Assign(name), Decide(true)], bootLimit);
    RunsTo(w, [Register(name), Assign(name), Decide(true)], bootLimit);
  }

  lemma RunsTo(w: World, events: seq<Event>, bootLimit: nat)
    requires events != [] && Enabled(w, events[0], bootLimit)
    requires Legal(Next(w, events[0], bootLimit), events[1..], bootLimit)
    ensures Legal(w, events, bootLimit)
    ensures Run(w, events, bootLimit) == Run(Next(w, events[0], bootLimit), events[1..], bootLimit)
  {
  }

  function Ticks(n: nat): seq<Event> { seq(n, i => Tick) }

  lemma {:induction false} TicksPass(w: World, n: nat, bootLimit: nat)
    ensures Legal(w, Ticks(n), bootLimit) && Run(w, Ticks(n), bootLimit) == w.(clock := w.clock + n)
    decreases n
  {
    if n > 0 {
      var next := Next(w, Tick, bootLimit);
      TicksPass(next, n - 1, bootLimit);
      assert Ticks(n)[1..] == Ticks(n - 1) && Ticks(n)[0] == Tick;
    }
  }

  lemma {:induction false} RunConcat(w: World, first: seq<Event>, second: seq<Event>, bootLimit: nat)
    requires Legal(w, first, bootLimit) && Legal(Run(w, first, bootLimit), second, bootLimit)
    ensures Legal(w, first + second, bootLimit)
    ensures Run(w, first + second, bootLimit) == Run(Run(w, first, bootLimit), second, bootLimit)
    decreases |first|
  {
    if first == [] {
      assert first + second == second;
    } else {
      assert (first + second)[1..] == first[1..] + second;
      RunConcat(Next(w, first[0], bootLimit), first[1..], second, bootLimit);
    }
  }

  /** From the start: a runner is made, its agent is marked unavailable, the grace goes by, and the rest follows. */
  lemma LateRegistrationIsReached(w: World, name: string, agent: string, bootLimit: nat)
    requires Init(w) && bootLimit > DRAIN_BOOT_GRACE
    ensures exists events :: Legal(w, events, bootLimit)
              && name in Run(w, events, bootLimit).destroyed
              && name in Run(w, events, bootLimit).forge && Run(w, events, bootLimit).forge[name] == Working
  {
    var create, mark := Create(name, Record(agent, w.clock, false, GitHub)), SetUnavailable({agent});
    var w1 := Next(w, create, bootLimit);
    var w2 := Next(w1, mark, bootLimit);
    TicksPass(w2, DRAIN_BOOT_GRACE, bootLimit);
    RunsTo(w1, [mark] + Ticks(DRAIN_BOOT_GRACE), bootLimit);
    RunsTo(w, [create] + ([mark] + Ticks(DRAIN_BOOT_GRACE)), bootLimit);
    var before := [create] + ([mark] + Ticks(DRAIN_BOOT_GRACE));
    var w3 := w2.(clock := w2.clock + DRAIN_BOOT_GRACE);
    assert Run(w, before, bootLimit) == w3;
    LateRegistrationIsCutShort(w3, name, bootLimit);
    var events :| Legal(w3, events, bootLimit) && name in Run(w3, events, bootLimit).destroyed
                  && name in Run(w3, events, bootLimit).forge && Run(w3, events, bootLimit).forge[name] == Working;
    RunConcat(w, before, events, bootLimit);
    assert Legal(w, before + events, bootLimit);
  }
}
