/**
 Keeping the pending jobs in step with the forges (kuiper-forge/src/fleet.rs): scans add the jobs that forges have
 queued, go over the pending jobs if there are new ones, and check pending jobs with their forge before dropping them.
 */
module Polls {
  import opened Common
  import opened Text
  import opened Forge
  import opened Lifecycle
  import opened Labels
  import opened Fleet
  import Forgejo

  /** Seconds */
  const MAX_AGE_WITHOUT_REPO: int := 24 * 3600

  /** Configured forges, what each says when a job is verified, and the time. */
  datatype Outside = Outside(forges: seq<string>, status: (JobKey, string) -> Status, now: int)

  function StillPending(): set<string> { {"queued", "waiting"} }

  /** The forge was asked and doesn't have the job pending, or it can't be asked for good. */
  predicate Gone(job: JobKey, repository: Option<string>, created: int, outside: Outside) {
    match repository
    case None => outside.now - created > MAX_AGE_WITHOUT_REPO
    case Some(repo) =>
      || job.forge !in outside.forges
      || outside.status(job, repo).NotFound?
      || (outside.status(job, repo).Found? && outside.status(job, repo).status !in StillPending())
  }

  predicate IsGone(pending: map<JobKey, Pending>, job: JobKey, outside: Outside)
    requires job in pending
  {
    Gone(job, pending[job].repository, pending[job].created, outside)
  }

  // ---------- adding what a scan finds ----------

  datatype Mapping = Mapping(forge: Option<string>, labels: seq<string>)

  datatype Filters = Filters(required: seq<string>, mappings: seq<Mapping>)

  predicate HasAll(labels: seq<string>, required: seq<string>) {
    forall r :: r in required ==> HasLabel(labels, r)
  }

  predicate Accepts(filters: Filters, job: JobKey, labels: seq<string>) {
    && HasAll(labels, filters.required)
    && (filters.mappings == [] ||
        exists m :: m in filters.mappings && (m.forge.None? || m.forge.value == job.forge) && HasAll(labels, m.labels))
  }

  /** A job as a forge lists it. */
  datatype Entry = Entry(id: string, labels: seq<string>, repository: Option<string>)

  datatype Queued = Queued(key: JobKey, job: Entry)

  predicate Wanted(st: Stores, filters: Filters, q: Queued) {
    Accepts(filters, q.key, q.job.labels) && !st.HasRunnerFor(q.key)
  }

  function AddOne(st: Stores, q: Queued, filters: Filters, now: int): Stores {
    if Wanted(st, filters, q) && q.key !in st.pending then
      st.(pending := st.pending[q.key := Pending(0, [], q.job.repository, now)])
    else st
  }

  function AddAll(st: Stores, queued: seq<Queued>, filters: Filters, now: int): Stores
    decreases |queued|
  {
    if queued == [] then st else AddAll(AddOne(st, queued[0], filters, now), queued[1..], filters, now)
  }

  /** Exactly the accepted jobs without a runner are added, as new ones, and pending jobs stay as they are. */
  lemma {:induction false} AddAllIsExact(st: Stores, queued: seq<Queued>, filters: Filters, now: int)
    ensures var st' := AddAll(st, queued, filters, now);
            && st' == st.(pending := st'.pending)
            && st'.pending.Keys == st.pending.Keys + (set q | q in queued && Wanted(st, filters, q) :: q.key)
            && (forall j :: j in st.pending ==> st'.pending[j] == st.pending[j])
            && (forall j :: j in st'.pending && j !in st.pending ==> st'.pending[j].retries == 0)
    decreases |queued|
  {
    if queued != [] {
      assert forall q :: q in queued <==> q == queued[0] || q in queued[1..];
      var st1 := AddOne(st, queued[0], filters, now);
      assert forall q :: Wanted(st1, filters, q) == Wanted(st, filters, q) by {
        assert forall j :: st1.HasRunnerFor(j) == st.HasRunnerFor(j);
      }
      AddAllIsExact(st1, queued[1..], filters, now);
    }
  }

  // ---------- what the forges list ----------

  /** Forges whose queues were listed, and every job they listed. */
  datatype QueueScan = QueueScan(forges: set<string>, seen: set<JobKey>)

  type Listings = seq<Option<seq<Entry>>>

  function Keyed(forge: string, jobs: seq<Entry>): (r: seq<Queued>)
    ensures |r| == |jobs|
    ensures forall q :: q in r ==> q.key.forge == forge
  {
    seq(|jobs|, i requires 0 <= i < |jobs| => Queued(JobKey(forge, jobs[i].id), jobs[i]))
  }

  function Gathered(forges: seq<string>, listings: Listings): (r: seq<Queued>)
    requires |forges| == |listings|
    decreases |forges|
  {
    if forges == [] then []
    else
      (if listings[0].Some? then Keyed(forges[0], listings[0].value) else [])
      + Gathered(forges[1..], listings[1..])
  }

  function ListedForges(forges: seq<string>, listings: Listings): set<string>
    requires |forges| == |listings|
  {
    set i | 0 <= i < |forges| && listings[i].Some? :: forges[i]
  }

  function KeysOf(queued: seq<Queued>): set<JobKey> { set q | q in queued :: q.key }

  lemma {:induction false} NothingGathered(forges: seq<string>, listings: Listings)
    requires |forges| == |listings|
    ensures ListedForges(forges, listings) == {} ==> Gathered(forges, listings) == []
    decreases |forges|
  {
    if forges != [] {
      NothingGathered(forges[1..], listings[1..]);
      assert forall i :: 0 <= i < |forges[1..]| ==>
               forges[1..][i] == forges[i + 1] && listings[1..][i] == listings[i + 1];
      assert ListedForges(forges[1..], listings[1..]) <= ListedForges(forges, listings);
      if listings[0].Some? {
        assert forges[0] in ListedForges(forges, listings);
      }
    }
  }

  // ---------- a scan ----------

  /** All that a scan meets: what forges list and say, and how it goes should a runner be made. */
  datatype Round = Round(outside: Outside, filters: Filters, listings: Listings, backingOff: set<JobKey>,
                         made: JobKey -> Made)
  {
    predicate Valid() { |outside.forges| == |listings| }

    function Queue(): seq<Queued> requires Valid() { Gathered(outside.forges, listings) }

    function Scan(): QueueScan requires Valid() { QueueScan(ListedForges(outside.forges, listings), KeysOf(Queue())) }

    function Added(st: Stores): Stores requires Valid() { AddAll(st, Queue(), filters, outside.now) }

    /** There is something new, so the scan goes over the pending jobs. */
    predicate Passes(st: Stores)
      requires Valid()
    {
      exists q :: q in Queue() && Wanted(st, filters, q) && q.key !in st.pending
    }

    /** Each runner gets a name of its own. */
    ghost predicate NamesRunners(st: Stores) {
      && (forall j :: made(j).Names() !! st.runners.Keys && "" !in made(j).Names())
      && (forall j, k :: j != k ==> made(j).Names() !! made(k).Names())
    }
  }

  function NoLongerListed(pending: map<JobKey, Pending>, scan: QueueScan, outside: Outside): set<JobKey> {
    set j | j in pending && j.forge in scan.forges && j !in scan.seen && IsGone(pending, j, outside)
  }

  function AllGone(pending: map<JobKey, Pending>, outside: Outside): set<JobKey> {
    set j | j in pending && IsGone(pending, j, outside)
  }

  /** The forges' queues are added, and if that brought anything new, a pass follows. */
  ghost predicate IsRecovered(st: Stores, st': Stores, r: Round)
    requires r.Valid()
  {
    if r.Passes(st) then IsPass(r.Added(st), st', r.backingOff, r.made) else st' == st
  }

  /** A poll, which then checks the jobs that the forges it listed no longer list. */
  ghost predicate IsPolled(st: Stores, st': Stores, r: Round)
    requires r.Valid()
  {
    if r.Scan().forges == {} then st' == st
    else
      exists mid :: IsRecovered(st, mid, r)
                    && st' == mid.(pending := mid.pending - NoLongerListed(mid.pending, r.Scan(), r.outside))
  }

  /** A scan in webhook mode, which checks every job first. */
  ghost predicate IsChecked(st: Stores, st': Stores, r: Round)
    requires r.Valid()
  {
    IsRecovered(st.(pending := st.pending - AllGone(st.pending, r.outside)), st', r)
  }

  /** The pending job, as a pass lists it. */
  function AsListed(st: Stores, job: JobKey): Listed
    requires job in st.pending
  {
    Listed(job, st.pending[job].retries, st.pending[job].repository)
  }

  /** The pass within a scan takes the job off the queue. */
  predicate LostInPass(st: Stores, r: Round, job: JobKey)
    requires r.Valid() && job in st.pending
  {
    r.Passes(st) && PassDrops(st, AsListed(st, job), r.backingOff, r.made(job))
  }

  lemma NewNamesForAll(st: Stores, jobs: seq<Listed>, r: Round)
    requires r.NamesRunners(st) && IsListing(jobs, st)
    ensures NewNames(st.runners.Keys, jobs, r.made)
  {
  }

  /** What recovering queued jobs leaves of one that was pending. */
  lemma RecoveredKeeps(st: Stores, st': Stores, r: Round, job: JobKey)
    requires r.Valid() && r.NamesRunners(st) && IsRecovered(st, st', r) && job in st.pending
    ensures job !in st'.pending <==> LostInPass(st, r, job)
    ensures job in st'.pending ==>
              && st'.pending[job].repository == st.pending[job].repository
              && st'.pending[job].created == st.pending[job].created
  {
    var added := r.Added(st);
    AddAllIsExact(st, r.Queue(), r.filters, r.outside.now);
    if r.Passes(st) {
      PassKeeps(st, added, st', r, job);
    }
  }

  lemma PassKeeps(st: Stores, added: Stores, st': Stores, r: Round, job: JobKey)
    requires r.Valid() && r.NamesRunners(st) && IsPass(added, st', r.backingOff, r.made)
    requires added == st.(pending := added.pending) && job in added.pending
    ensures job !in st'.pending <==> PassDrops(st, AsListed(added, job), r.backingOff, r.made(job))
    ensures job in st'.pending ==>
              && st'.pending[job].repository == added.pending[job].repository
              && st'.pending[job].created == added.pending[job].created
  {
    var jobs :| IsListing(jobs, added) && st' == Pass(added, jobs, r.backingOff, r.made);
    var l: Listed :| l in jobs && l.job == job;
    assert IsListed(added, l) && l == AsListed(added, job);
    assert r.NamesRunners(added);
    NewNamesForAll(added, jobs, r);
    PassDropsIff(added, jobs, r.backingOff, r.made, l);
    assert added.HasRunnerFor(job) == st.HasRunnerFor(job);
  }

  /** A poll takes a pending job off the queue exactly if its pass does, or its forge was listed without it and, asked
      about it, doesn't have it pending. */
  lemma PollDropsIff(st: Stores, st': Stores, r: Round, job: JobKey)
    requires r.Valid() && r.NamesRunners(st) && IsPolled(st, st', r) && job in st.pending
    ensures job !in st'.pending <==>
            || LostInPass(st, r, job)
            || (job.forge in r.Scan().forges && job !in r.Scan().seen && IsGone(st.pending, job, r.outside))
  {
    NothingGathered(r.outside.forges, r.listings);
    if r.Scan().forges != {} {
      var mid :| IsRecovered(st, mid, r)
                 && st' == mid.(pending := mid.pending - NoLongerListed(mid.pending, r.Scan(), r.outside));
      RecoveredKeeps(st, mid, r, job);
    }
  }

  /** A scan in webhook mode takes a pending job off the queue exactly if its check does and it isn't listed again, or
      its pass does; of the checked jobs, those that are kept stay as they were until then. */
  lemma CheckDropsIff(st: Stores, st': Stores, r: Round, job: JobKey)
    requires r.Valid() && r.NamesRunners(st) && IsChecked(st, st', r) && job in st.pending
    ensures var kept := st.(pending := st.pending - AllGone(st.pending, r.outside));
            var added := r.Added(kept);
            && (job in added.pending <==>
                  || !IsGone(st.pending, job, r.outside)
                  || exists q :: q in r.Queue() && q.key == job && Wanted(st, r.filters, q))
            && (job !in st'.pending <==>
                  || job !in added.pending
                  || (r.Passes(kept) && PassDrops(st, AsListed(added, job), r.backingOff, r.made(job))))
            && (!IsGone(st.pending, job, r.outside) ==> AsListed(added, job) == AsListed(st, job))
  {
    var kept := st.(pending := st.pending - AllGone(st.pending, r.outside));
    var added := r.Added(kept);
    AddAllIsExact(kept, r.Queue(), r.filters, r.outside.now);
    assert forall j :: kept.HasRunnerFor(j) == st.HasRunnerFor(j);
    assert forall q :: Wanted(kept, r.filters, q) == Wanted(st, r.filters, q);
    if r.Passes(kept) {
      if job in added.pending {
        PassKeeps(kept, added, st', r, job);
      } else {
        PassAddsNothing(added, st', r, job);
      }
    }
  }

  lemma PassAddsNothing(added: Stores, st': Stores, r: Round, job: JobKey)
    requires r.Valid() && r.NamesRunners(added) && IsPass(added, st', r.backingOff, r.made) && job !in added.pending
    ensures job !in st'.pending
  {
    var jobs :| IsListing(jobs, added) && st' == Pass(added, jobs, r.backingOff, r.made);
    NewNamesForAll(added, jobs, r);
    assert forall l :: l in jobs ==> IsListed(added, l) && l.job != job;
    PassOnJob(added, jobs, r.backingOff, r.made, job);
    assert Standing(st', job).0 == Standing(added, job).0;
  }

  /** The forge has the job pending, or can't be asked about it now. */
  predicate NotGone(st: Stores, r: Round, job: JobKey) {
    && job in st.pending && st.pending[job].repository.Some? && job.forge in r.outside.forges
    && var status := r.outside.status(job, st.pending[job].repository.value);
       status.Failed? || (status.Found? && status.status in StillPending())
  }

  /** Such a job is only ever lost in the pass, whatever forges and requests fail: if the pass comes to make a runner
      for it, and then either the forge's next answer isn't "queued", or that is the last failure it has left. */
  lemma NotGoneIsLostOnlyInPass(st: Stores, st': Stores, r: Round, job: JobKey)
    requires r.Valid() && r.NamesRunners(st) && NotGone(st, r, job)
    ensures IsPolled(st, st', r) ==> (job !in st'.pending <==> LostInPass(st, r, job))
    ensures IsChecked(st, st', r) ==>
              (job !in st'.pending <==>
                 LostInPass(st.(pending := st.pending - AllGone(st.pending, r.outside)), r, job))
  {
    assert !IsGone(st.pending, job, r.outside);
    if IsPolled(st, st', r) {
      PollDropsIff(st, st', r, job);
    }
    if IsChecked(st, st', r) {
      CheckDropsIff(st, st', r, job);
      var kept := st.(pending := st.pending - AllGone(st.pending, r.outside));
      assert kept.HasRunnerFor(job) == st.HasRunnerFor(job);
    }
  }

  /** The check before launch is stricter than the verification: a job that its forge reports as "waiting" passes the
      one and is dropped by the other, as soon as a scan brings anything new and an agent is found for it. */
  lemma WaitingIsDropped(st: Stores, st': Stores, r: Round, job: JobKey, agent: string, name: string, registered: bool)
    requires r.Valid() && r.NamesRunners(st) && job in st.pending && st.pending[job].repository.Some?
    requires st.pending[job].retries < MAX_RETRIES && !Skipped(st, job, r.backingOff)
    requires r.made(job) == On(agent, name, Status.Found("waiting"), registered)
    requires r.Passes(st) && IsPolled(st, st', r)
    ensures job !in st'.pending
  {
    PollDropsIff(st, st', r, job);
  }

  // ---------- a Forgejo job ----------

  /** What the coordinator holds of a job is what the instance has, and all it is told comes from the instance's
      answers. */
  ghost predicate Told(st: Stores, r: Round, forge: string, instance: set<Forgejo.Job>, scopes: seq<Forgejo.Scope>,
                       job: Forgejo.Job, answer: Forgejo.Scope -> Forgejo.Listing,
                       later: Forgejo.Scope -> Forgejo.Listing)
  {
    var key := JobKey(forge, job.handle);
    && Forgejo.OneJobPerHandle(instance) && job in instance
    && (forall s :: Forgejo.Lists(instance, s, answer(s)) && Forgejo.Lists(instance, s, later(s)))
    && forge in r.outside.forges && key in st.pending && st.pending[key].repository.Some?
    && var repo := st.pending[key].repository.value;
       var split := Forgejo.SplitOnce(repo);
       && split.Some? && EqIgnoreCase(split.value.0, job.owner) && EqIgnoreCase(split.value.1, job.repo)
       && r.outside.status(key, repo) == Forgejo.GetJobStatus(scopes, repo, job.handle, answer)
       && (r.made(key).On? ==> r.made(key).status == Forgejo.GetJobStatus(scopes, repo, job.handle, later))
  }

  /** A Forgejo job that still waits survives a poll, whichever of the instance's scopes fail to answer, unless the pass
      finds it at the limit or fails to register a runner for it for the last time. */
  lemma WaitingForgejoJobStaysIff(st: Stores, st': Stores, r: Round, forge: string, instance: set<Forgejo.Job>,
                                  scopes: seq<Forgejo.Scope>, job: Forgejo.Job,
                                  answer: Forgejo.Scope -> Forgejo.Listing, later: Forgejo.Scope -> Forgejo.Listing)
    requires r.Valid() && r.NamesRunners(st) && IsPolled(st, st', r) && job.status == "waiting"
    requires Told(st, r, forge, instance, scopes, job, answer, later)
    ensures var key := JobKey(forge, job.handle);
            var retries, made := st.pending[key].retries, r.made(key);
            key in st'.pending <==>
            !(&& r.Passes(st)
              && (|| retries >= MAX_RETRIES
                  || (&& !Skipped(st, key, r.backingOff) && retries + 1 >= MAX_RETRIES
                      && (made.RefusedAtOnce? || (made.On? && !made.registered)))))
  {
    var key := JobKey(forge, job.handle);
    var repo := st.pending[key].repository.value;
    Forgejo.StatusIsTruthful(instance, scopes, repo, job, answer);
    Forgejo.StatusIsTruthful(instance, scopes, repo, job, later);
    assert NotGone(st, r, key);
    NotGoneIsLostOnlyInPass(st, st', r, key);
  }

  // ---------- as the fleet manager does it ----------

  class FleetManager {
    const fleet: Fleet.FleetManager

    constructor (fleet: Fleet.FleetManager)
      ensures this.fleet == fleet
    {
      this.fleet := fleet;
    }

    method VerifyPendingJob(job: JobKey, info: Pending, outside: Outside)
      modifies fleet`pending
      ensures fleet.pending == if Gone(job, info.repository, info.created, outside) then old(fleet.pending) - {job}
                               else old(fleet.pending)
    {
      if info.repository.None? {
        var age := outside.now - info.created;
        if age > MAX_AGE_WITHOUT_REPO {
          fleet.pending := fleet.pending - {job};
        }
        return;
      }
      if job.forge !in outside.forges {
        fleet.pending := fleet.pending - {job};
        return;
      }
      match outside.status(job, info.repository.value)
      case Found(status) =>
        if status != "queued" && status != "waiting" {
          fleet.pending := fleet.pending - {job};
        }
      case NotFound => fleet.pending := fleet.pending - {job};
      case Failed =>
    }

    /** Checks some pending jobs, as listed. */
    method VerifyAll(listed: map<JobKey, Pending>, outside: Outside)
      modifies fleet`pending
      ensures fleet.pending == old(fleet.pending) - AllGone(listed, outside)
    {
      var todo := listed.Keys;
      ghost var done: set<JobKey> := {};
      while todo != {}
        invariant done + todo == listed.Keys && done !! todo
        invariant fleet.pending == old(fleet.pending) - set j | j in done && IsGone(listed, j, outside)
        decreases |todo|
      {
        var job :| job in todo;
        VerifyPendingJob(job, listed[job], outside);
        todo := todo - {job};
        done := done + {job};
      }
      assert done == listed.Keys;
    }

    /** `configured` is false in modes that serve no queue. */
    method RecoverQueuedJobs(r: Round, configured: bool) returns (scan: Option<QueueScan>)
      requires r.Valid()
      modifies fleet`pending, fleet`runners, fleet`slots
      ensures scan == if configured && r.Scan().forges != {} then Some(r.Scan()) else None
      ensures if scan.None? then fleet.Shared() == old(fleet.Shared())
              else IsRecovered(old(fleet.Shared()), fleet.Shared(), r)
    {
      if !configured {
        return None;
      }
      var found, queued := ListForges(r.listings, r.outside.forges);
      if found.forges == {} {
        return None;
      }
      var added := AddJobs(queued, r.filters, r.outside.now);
      AddAllIsExact(old(fleet.Shared()), queued, r.filters, r.outside.now);
      if added > 0 {
        fleet.ProcessPendingJobs(r.backingOff, r.made);
      } else {
        assert fleet.pending == old(fleet.pending);
      }
      scan := Some(found);
    }

    method ListForges(listings: Listings, forges: seq<string>) returns (found: QueueScan, queued: seq<Queued>)
      requires |forges| == |listings|
      ensures queued == Gathered(forges, listings)
      ensures found == QueueScan(ListedForges(forges, listings), KeysOf(queued))
    {
      found, queued := QueueScan({}, {}), [];
      for i := 0 to |listings|
        invariant found.forges == ListedForges(forges[..i], listings[..i]) && found.seen == KeysOf(queued)
        invariant queued + Gathered(forges[i..], listings[i..]) == Gathered(forges, listings)
      {
        assert forges[i..][1..] == forges[i + 1..] && listings[i..][1..] == listings[i + 1..];
        assert ListedForges(forges[..i + 1], listings[..i + 1])
            == ListedForges(forges[..i], listings[..i]) + if listings[i].Some? then {forges[i]} else {};
        if listings[i].Some? {
          var jobs := Keyed(forges[i], listings[i].value);
          found := QueueScan(found.forges + {forges[i]}, found.seen + KeysOf(jobs));
          queued := queued + jobs;
        }
      }
      assert forges[..|listings|] == forges && listings[..|listings|] == listings;
    }

    /** Returns how many were added. */
    method AddJobs(queued: seq<Queued>, filters: Filters, now: int) returns (added: nat)
      modifies fleet`pending
      ensures fleet.Shared() == AddAll(old(fleet.Shared()), queued, filters, now)
      ensures added > 0 <==> fleet.pending.Keys != old(fleet.pending).Keys
    {
      added := 0;
      for i := 0 to |queued|
        invariant AddAll(fleet.Shared(), queued[i..], filters, now) == AddAll(old(fleet.Shared()), queued, filters, now)
        invariant old(fleet.pending).Keys <= fleet.pending.Keys
        invariant added > 0 <==> fleet.pending.Keys != old(fleet.pending).Keys
      {
        var q := queued[i];
        assert queued[i..][1..] == queued[i + 1..];
        if !HasAll(q.job.labels, filters.required) || q.key in fleet.pending {
          continue;
        }
        if fleet.Shared().HasRunnerFor(q.key) {
          continue;
        }
        if Accepts(filters, q.key, q.job.labels) {
          fleet.pending := fleet.pending[q.key := Pending(0, [], q.job.repository, now)];
          added := added + 1;
        }
      }
    }

    method VerifyDropped(scan: QueueScan, outside: Outside)
      modifies fleet`pending
      ensures fleet.pending == old(fleet.pending) - NoLongerListed(old(fleet.pending), scan, outside)
    {
      var pending := fleet.pending;
      var dropped := map j | j in pending && j.forge in scan.forges && j !in scan.seen :: pending[j];
      VerifyAll(dropped, outside);
      assert AllGone(dropped, outside) == NoLongerListed(pending, scan, outside);
    }

    method ScanForges(polling: bool, r: Round, configured: bool)
      requires r.Valid()
      modifies fleet`pending, fleet`runners, fleet`slots
      ensures configured && polling ==> IsPolled(old(fleet.Shared()), fleet.Shared(), r)
      ensures configured && !polling ==> IsChecked(old(fleet.Shared()), fleet.Shared(), r)
      ensures !configured ==>
                var gone := if polling then {} else AllGone(old(fleet.pending), r.outside);
                fleet.Shared() == old(fleet.Shared()).(pending := old(fleet.pending) - gone)
    {
      if polling {
        var scan := RecoverQueuedJobs(r, configured);
        ghost var mid := fleet.Shared();
        assert fleet.pending - {} == fleet.pending;
        if scan.Some? {
          VerifyDropped(scan.value, r.outside);
          assert fleet.Shared() == mid.(pending := mid.pending - NoLongerListed(mid.pending, r.Scan(), r.outside));
        }
      } else {
        VerifyAll(fleet.pending, r.outside);
        ghost var kept := fleet.Shared();
        var scan := RecoverQueuedJobs(r, configured);
        NothingGathered(r.outside.forges, r.listings);
        assert configured && scan.None? ==> !r.Passes(kept);
      }
    }
  }
}
