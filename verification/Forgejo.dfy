/**
 Asking a Forgejo instance for jobs (kuiper-forge/src/forgejo.rs): every configured scope is listed on its own, any of
 those requests can fail, and scopes overlap.
 */
module Forgejo {
  import opened Common
  import opened Text
  import opened Forge

  datatype Scope = Organization(name: string) | User(name: string) | Repository(owner: string, repo: string) | Instance

  datatype ApiJob = ApiJob(handle: string, status: string, repoId: int, labels: seq<string>)

  datatype QueuedJob = QueuedJob(id: string, labels: seq<string>, scope: Scope, repository: Option<string>)

  /** A scope's waiting and running jobs, or no answer. */
  type Listing = Option<seq<ApiJob>>

  function FullName(owner: string, repo: string): string { owner + "/" + repo }

  function RepositoryOf(scope: Scope, job: ApiJob, names: map<int, string>): Option<string> {
    if scope.Repository? then Some(FullName(scope.owner, scope.repo))
    else if job.repoId in names then Some(names[job.repoId])
    else None
  }

  function Queued(scope: Scope, job: ApiJob, names: map<int, string>): QueuedJob {
    QueuedJob(job.handle, job.labels, scope, RepositoryOf(scope, job, names))
  }

  predicate Counts(job: ApiJob, seen: set<string>) {
    job.status == "waiting" && job.handle != "" && job.handle !in seen
  }

  function FromScope(scope: Scope, jobs: seq<ApiJob>, names: map<int, string>, seen: set<string>): seq<QueuedJob>
    decreases |jobs|
  {
    if jobs == [] then []
    else if Counts(jobs[0], seen) then
      [Queued(scope, jobs[0], names)] + FromScope(scope, jobs[1..], names, seen + {jobs[0].handle})
    else FromScope(scope, jobs[1..], names, seen)
  }

  /** Handles of waiting jobs */
  function Waiting(jobs: seq<ApiJob>): set<string> {
    set j | j in jobs && j.status == "waiting" && j.handle != "" :: j.handle
  }

  function AllWaiting(listings: seq<Listing>): set<string> {
    set l, h | l in listings && l.Some? && h in Waiting(l.value) :: h
  }

  function Scan(scopes: seq<Scope>, listings: seq<Listing>, names: map<int, string>, seen: set<string>): seq<QueuedJob>
    requires |listings| == |scopes|
    decreases |scopes|
  {
    if scopes == [] then []
    else if listings[0].None? then Scan(scopes[1..], listings[1..], names, seen)
    else
      FromScope(scopes[0], listings[0].value, names, seen)
      + Scan(scopes[1..], listings[1..], names, seen + Waiting(listings[0].value))
  }

  function Ids(queued: seq<QueuedJob>): set<string> { set q | q in queued :: q.id }

  predicate DistinctIds(queued: seq<QueuedJob>) {
    forall i, j :: 0 <= i < j < |queued| ==> queued[i].id != queued[j].id
  }

  lemma DistinctConcat(a: seq<QueuedJob>, b: seq<QueuedJob>)
    requires DistinctIds(a) && DistinctIds(b) && Ids(a) !! Ids(b)
    ensures DistinctIds(a + b) && Ids(a + b) == Ids(a) + Ids(b)
  {
    forall i, j | 0 <= i < j < |a + b| ensures (a + b)[i].id != (a + b)[j].id {
      if i < |a| <= j {
        assert a[i].id in Ids(a) && b[j - |a|].id in Ids(b);
      }
    }
  }

  lemma {:induction false} FromScopeIsExact(scope: Scope, jobs: seq<ApiJob>, names: map<int, string>, seen: set<string>)
    ensures Ids(FromScope(scope, jobs, names, seen)) == Waiting(jobs) - seen
    ensures DistinctIds(FromScope(scope, jobs, names, seen))
    ensures forall q :: q in FromScope(scope, jobs, names, seen) ==>
              exists j :: j in jobs && j.status == "waiting" && j.handle != "" && q == Queued(scope, j, names)
    decreases |jobs|
  {
    if jobs != [] {
      assert forall j :: j in jobs <==> j == jobs[0] || j in jobs[1..];
      var here := Counts(jobs[0], seen);
      FromScopeIsExact(scope, jobs[1..], names, if here then seen + {jobs[0].handle} else seen);
      if here {
        DistinctConcat([Queued(scope, jobs[0], names)], FromScope(scope, jobs[1..], names, seen + {jobs[0].handle}));
      }
    }
  }

  /** A scan lists exactly the jobs that some answering scope has waiting, each once. */
  lemma {:induction false} ScanIsExact(scopes: seq<Scope>, listings: seq<Listing>, names: map<int, string>,
                                       seen: set<string>)
    requires |listings| == |scopes|
    ensures Ids(Scan(scopes, listings, names, seen)) == AllWaiting(listings) - seen
    ensures DistinctIds(Scan(scopes, listings, names, seen))
    decreases |scopes|
  {
    if scopes != [] {
      assert forall l :: l in listings <==> l == listings[0] || l in listings[1..];
      if listings[0].None? {
        ScanIsExact(scopes[1..], listings[1..], names, seen);
        assert AllWaiting(listings) == AllWaiting(listings[1..]);
      } else {
        var jobs := listings[0].value;
        FromScopeIsExact(scopes[0], jobs, names, seen);
        ScanIsExact(scopes[1..], listings[1..], names, seen + Waiting(jobs));
        DistinctConcat(FromScope(scopes[0], jobs, names, seen),
                       Scan(scopes[1..], listings[1..], names, seen + Waiting(jobs)));
        assert AllWaiting(listings) == Waiting(jobs) + AllWaiting(listings[1..]);
      }
    }
  }

  /** Each entry is the job as the first answering scope that has it waiting lists it. */
  lemma {:induction false} ScanTakesTheFirst(scopes: seq<Scope>, listings: seq<Listing>, names: map<int, string>,
                                             seen: set<string>, q: QueuedJob) returns (k: nat, job: ApiJob)
    requires |listings| == |scopes| && q in Scan(scopes, listings, names, seen)
    ensures k < |scopes| && listings[k].Some? && job in listings[k].value && job.status == "waiting"
    ensures q == Queued(scopes[k], job, names)
    ensures q.id !in seen && forall i :: 0 <= i < k && listings[i].Some? ==> q.id !in Waiting(listings[i].value)
    decreases |scopes|
  {
    if listings[0].None? {
      k, job := ScanTakesTheFirst(scopes[1..], listings[1..], names, seen, q);
      k := k + 1;
    } else {
      var jobs := listings[0].value;
      FromScopeIsExact(scopes[0], jobs, names, seen);
      if q in FromScope(scopes[0], jobs, names, seen) {
        assert q.id in Ids(FromScope(scopes[0], jobs, names, seen));
        job :| job in jobs && job.status == "waiting" && job.handle != "" && q == Queued(scopes[0], job, names);
        k := 0;
      } else {
        k, job := ScanTakesTheFirst(scopes[1..], listings[1..], names, seen + Waiting(jobs), q);
        k := k + 1;
      }
    }
  }

  // ---------- one job's status ----------

  function GithubStatus(status: string): string {
    if status == "waiting" then "queued" else if status == "running" then "in_progress" else status
  }

  /** `split_once('/')` */
  function SplitOnce(s: string): (r: Option<(string, string)>)
    ensures r.Some? ==> s == FullName(r.value.0, r.value.1) && '/' !in r.value.0
    ensures r.None? ==> '/' !in s
  {
    var slash := (i: nat) => i < |s| && s[i] == '/';
    assert forall i: nat :: i < |s| && s[i] == '/' ==> slash(i);
    match FirstIndex(|s|, slash)
    case None => None
    case Some(i) => Some((s[..i], s[i + 1..]))
  }

  lemma SplitFullName(owner: string, repo: string)
    requires '/' !in owner
    ensures SplitOnce(FullName(owner, repo)) == Some((owner, repo))
  {
    var s := FullName(owner, repo);
    assert s[|owner|] == '/';
    var (a, b) := SplitOnce(s).value;
    assert forall i :: 0 <= i < |owner| ==> s[i] == owner[i];
    assert s[|a|] == '/' && forall i :: 0 <= i < |a| ==> s[i] == a[i] && a[i] != '/';
    assert |a| == |owner|;
    assert s[..|owner|] == owner && s[|owner| + 1..] == repo && s[..|a|] == a && s[|a| + 1..] == b;
  }

  predicate Owns(scope: Scope, owner: string) {
    (scope.Organization? || scope.User?) && EqIgnoreCase(scope.name, owner)
  }

  function ScopeForRepo(scopes: seq<Scope>, repo: string): Option<Scope> {
    match SplitOnce(repo)
    case None => None
    case Some((owner, name)) =>
      var owning := Filter(scopes, (s: Scope) => Owns(s, owner));
      if owning != [] then Some(owning[0])
      else if Instance in scopes then Some(Instance)
      else Some(Repository(owner, name))
  }

  /** `answer` is what each scope answers, should it be asked. */
  function GetJobStatus(scopes: seq<Scope>, repo: string, handle: string, answer: Scope -> Listing): Status {
    match ScopeForRepo(scopes, repo)
    case None => Failed
    case Some(scope) =>
      match answer(scope)
      case None => Failed
      case Some(jobs) =>
        var found := Filter(jobs, (j: ApiJob) => j.handle == handle);
        if found == [] then NotFound else Found(GithubStatus(found[0].status))
  }

  // ---------- what the instance really has ----------

  datatype Job = Job(handle: string, status: string, owner: string, repo: string, repoId: int, labels: seq<string>)

  predicate Covers(scope: Scope, job: Job) {
    match scope
    case Organization(name) => EqIgnoreCase(name, job.owner)
    case User(name) => EqIgnoreCase(name, job.owner)
    case Repository(owner, repo) => EqIgnoreCase(owner, job.owner) && EqIgnoreCase(repo, job.repo)
    case Instance => true
  }

  /** Jobs that neither wait nor run aren't listed. */
  predicate Lists(instance: set<Job>, scope: Scope, listing: Listing) {
    listing.Some? ==>
      && (forall j :: j in instance && Covers(scope, j) && j.status in {"waiting", "running"} ==>
            ApiJob(j.handle, j.status, j.repoId, j.labels) in listing.value)
      && (forall a :: a in listing.value ==>
            exists j :: j in instance && Covers(scope, j) && j.status in {"waiting", "running"}
                        && a == ApiJob(j.handle, j.status, j.repoId, j.labels))
  }

  predicate OneJobPerHandle(instance: set<Job>) {
    forall i, j :: i in instance && j in instance && i.handle == j.handle ==> i == j
  }

  lemma ScopeCoversItsRepo(scopes: seq<Scope>, repo: string, job: Job)
    requires SplitOnce(repo).Some?
    requires EqIgnoreCase(SplitOnce(repo).value.0, job.owner) && EqIgnoreCase(SplitOnce(repo).value.1, job.repo)
    ensures ScopeForRepo(scopes, repo).Some? && Covers(ScopeForRepo(scopes, repo).value, job)
  {
    var (owner, name) := SplitOnce(repo).value;
    var owning := Filter(scopes, (s: Scope) => Owns(s, owner));
    if owning != [] {
      assert owning[0] in owning;
    }
  }

  /** Asked about a job by its repository, the client either fails or says exactly how the job stands; it never takes a
      job that still waits for gone. */
  lemma StatusIsTruthful(instance: set<Job>, scopes: seq<Scope>, repo: string, job: Job, answer: Scope -> Listing)
    requires OneJobPerHandle(instance) && job in instance
    requires SplitOnce(repo).Some?
    requires EqIgnoreCase(SplitOnce(repo).value.0, job.owner) && EqIgnoreCase(SplitOnce(repo).value.1, job.repo)
    requires forall s :: Lists(instance, s, answer(s))
    ensures GetJobStatus(scopes, repo, job.handle, answer) in
              {Failed, if job.status == "waiting" then Found("queued")
                       else if job.status == "running" then Found("in_progress") else NotFound}
  {
    ScopeCoversItsRepo(scopes, repo, job);
    var scope := ScopeForRepo(scopes, repo).value;
    var listing := answer(scope);
    assert Lists(instance, scope, listing);
    if listing.Some? {
      var found := Filter(listing.value, (j: ApiJob) => j.handle == job.handle);
      if found != [] {
        assert found[0] in found;
        var j :| j in instance && Covers(scope, j) && j.status in {"waiting", "running"}
                 && found[0] == ApiJob(j.handle, j.status, j.repoId, j.labels);
      }
      if job.status in {"waiting", "running"} {
        assert ApiJob(job.handle, job.status, job.repoId, job.labels) in found;
      }
    }
  }

  /** The repository that a scan gives a job is one by which its status can be asked. */
  lemma ScannedRepositoryFits(instance: set<Job>, scope: Scope, listing: seq<ApiJob>, names: map<int, string>,
                              a: ApiJob, job: Job)
    requires OneJobPerHandle(instance) && Lists(instance, scope, Some(listing)) && a in listing
    requires job in instance && job.handle == a.handle
    requires '/' !in job.owner && (scope.Repository? ==> '/' !in scope.owner)
    requires forall j :: j in instance && j.repoId in names ==> names[j.repoId] == FullName(j.owner, j.repo)
    requires RepositoryOf(scope, a, names).Some?
    ensures var split := SplitOnce(RepositoryOf(scope, a, names).value);
            split.Some? && EqIgnoreCase(split.value.0, job.owner) && EqIgnoreCase(split.value.1, job.repo)
  {
    var j :| j in instance && Covers(scope, j) && j.status in {"waiting", "running"}
             && a == ApiJob(j.handle, j.status, j.repoId, j.labels);
    assert j == job;
    if scope.Repository? {
      SplitFullName(scope.owner, scope.repo);
    } else {
      SplitFullName(job.owner, job.repo);
    }
  }

  // ---------- the client ----------

  class ForgejoClient {
    const scopes: seq<Scope>
    /** Repository names by id, cached */
    var repoNames: map<int, string>

    constructor (scopes: seq<Scope>)
      ensures this.scopes == scopes && repoNames == map[]
    {
      this.scopes := scopes;
      repoNames := map[];
    }

    /** Names as they can be had now: `lookups` are the lookups that would succeed. */
    function Names(lookups: map<int, string>): map<int, string>
      reads this`repoNames
    {
      lookups + repoNames
    }

    method RepoName(id: int, lookups: map<int, string>) returns (name: Option<string>)
      modifies this`repoNames
      ensures name == if id in old(Names(lookups)) then Some(old(Names(lookups))[id]) else None
      ensures repoNames == if name.Some? then old(repoNames)[id := name.value] else old(repoNames)
      ensures Names(lookups) == old(Names(lookups))
    {
      if id in repoNames {
        name := Some(repoNames[id]);
      } else if id in lookups {
        repoNames := repoNames[id := lookups[id]];
        name := Some(lookups[id]);
      } else {
        name := None;
      }
    }

    method ListQueuedJobs(listings: seq<Listing>, lookups: map<int, string>) returns (r: Option<seq<QueuedJob>>)
      requires |listings| == |scopes|
      modifies this`repoNames
      ensures r.None? <==> forall l :: l in listings ==> l.None?
      ensures r.Some? ==> r.value == Scan(scopes, listings, old(Names(lookups)), {})
      ensures Names(lookups) == old(Names(lookups))
    {
      var queued: seq<QueuedJob> := [];
      var seen: set<string> := {};
      var failed := 0;
      ghost var names := Names(lookups);
      for i := 0 to |scopes|
        invariant Names(lookups) == names
        invariant failed <= i && (failed == i <==> forall k :: 0 <= k < i ==> listings[k].None?)
        invariant queued + Scan(scopes[i..], listings[i..], names, seen) == Scan(scopes, listings, names, {})
      {
        if listings[i].None? {
          failed := failed + 1;
        } else {
          var more;
          more, seen := ListScope(scopes[i], listings[i].value, lookups, seen);
          queued := queued + more;
        }
        assert scopes[i..][1..] == scopes[i + 1..] && listings[i..][1..] == listings[i + 1..];
      }
      if failed == |scopes| {
        return None;
      }
      r := Some(queued);
    }

    method ListScope(scope: Scope, jobs: seq<ApiJob>, lookups: map<int, string>, seen0: set<string>)
      returns (queued: seq<QueuedJob>, seen: set<string>)
      modifies this`repoNames
      ensures queued == FromScope(scope, jobs, old(Names(lookups)), seen0)
      ensures seen == seen0 + Waiting(jobs)
      ensures Names(lookups) == old(Names(lookups))
    {
      queued, seen := [], seen0;
      ghost var names := Names(lookups);
      for i := 0 to |jobs|
        invariant Names(lookups) == names
        invariant seen == seen0 + Waiting(jobs[..i])
        invariant queued + FromScope(scope, jobs[i..], names, seen) == FromScope(scope, jobs, names, seen0)
      {
        var job := jobs[i];
        assert jobs[i..][1..] == jobs[i + 1..] && jobs[..i + 1] == jobs[..i] + [job];
        if job.status != "waiting" || job.handle in seen || job.handle == "" {
          continue;
        }
        seen := seen + {job.handle};
        var repository := if scope.Repository? then Some(FullName(scope.owner, scope.repo)) else None;
        if !scope.Repository? {
          repository := RepoName(job.repoId, lookups);
        }
        queued := queued + [QueuedJob(job.handle, job.labels, scope, repository)];
      }
      assert jobs[..|jobs|] == jobs;
    }
  }
}
