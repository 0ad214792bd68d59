/**
 Cached runner downloads (kuiper-agent-lib/src/runner_cache.rs): one platform directory, whose downloads exclude one
 another. The agent can die between any two file operations, a download can fail at any of them, and copies can be
 damaged from outside. SHA-256 is some function to 64 characters.
 */
module RunnerCache {
  import opened Common

  type Hash = string -> string

  ghost predicate IsHash(hash: Hash) { forall x :: |hash(x)| == 64 }

  predicate EndsWith(name: string, suffix: string) {
    |suffix| <= |name| && name[|name| - |suffix|..] == suffix
  }

  predicate IsChecksum(name: string) { EndsWith(name, ".sha256") }

  /** `with_added_extension("sha256")` */
  function ChecksumPath(path: string): (r: string)
    ensures IsChecksum(r)
  {
    path + ".sha256"
  }

  function BeforeLastDot(name: string): string {
    if name == "" then ""
    else if name[|name| - 1] == '.' then name[..|name| - 1]
    else BeforeLastDot(name[..|name| - 1])
  }

  /** `with_extension("part")` */
  function PartialPath(path: string): (r: string)
    ensures !IsChecksum(r)
  {
    var r := (if BeforeLastDot(path) == "" then path else BeforeLastDot(path)) + ".part";
    assert r[|r| - 1] == 't' && ".sha256"[6] == '6';
    assert |r| >= 7 ==> r[|r| - 7..][6] == 't';
    r
  }

  type Files = map<string, string>

  predicate Intact(files: Files, path: string, hash: Hash) {
    ChecksumPath(path) in files && path in files && hash(files[path]) == files[ChecksumPath(path)]
  }

  predicate IsCopyName(path: string) { !IsChecksum(path) && PartialPath(path) != path }

  /** Seconds */
  const RETRY_DOWNLOAD_AFTER: nat := 300

  datatype Stage = Opening | Body | Sum | Summed | Cleaning

  datatype Download = Download(path: string, sha256: string, data: string, stage: Stage)

  datatype Cache = Cache(
    files: Files,
    active: Option<Download>,
    failedAt: Option<nat>,
    clock: nat,
    /** History: checksums that were published, those that a download matched, contents handed out, and how many
        downloads were started */
    published: set<string>,
    verified: set<string>,
    handed: set<string>,
    started: nat)

  datatype Step =
    | Tick
    | Ask(path: string, sha256: Option<string>)
    | Open
    | Chunk(data: string)
    | EndBody
    /** The checksum file has its first `n` characters */
    | WriteSum(n: nat)
    | Rename
    | Remove(name: string)
    | Done
    | Fail
    | Crash
    | Damage(name: string, content: string)
    | Vanish(name: string)

  predicate At(c: Cache, stage: Stage) { c.active.Some? && c.active.value.stage == stage }

  /** Files that the running download writes. */
  function Own(c: Cache): set<string> {
    if c.active.None? then {}
    else
      var path := c.active.value.path;
      {path, PartialPath(path), ChecksumPath(path)}
  }

  predicate Enabled(c: Cache, step: Step) {
    match step
    case Tick => true
    case Ask(path, _) => c.active.None? && IsCopyName(path)
    case Open => At(c, Opening)
    case Chunk(_) => At(c, Body)
    case EndBody => At(c, Body)
    case WriteSum(n) => At(c, Sum) && n <= |c.active.value.sha256|
    case Rename => At(c, Summed) && PartialPath(c.active.value.path) in c.files
    case Remove(name) => At(c, Cleaning) && name in c.files && name !in KeptFiles(c.active.value.path)
    case Done => At(c, Cleaning) && c.files.Keys <= KeptFiles(c.active.value.path)
    case Fail => c.active.Some?
    case Crash => true
    case Damage(name, _) => name in c.files && name !in Own(c) && !IsChecksum(name)
    case Vanish(name) => name !in Own(c)
  }

  function KeptFiles(path: string): set<string> { {path, ChecksumPath(path)} }

  /** `cached`, as far as it decides: hand out the copy, wait, or begin a download. */
  function Asked(c: Cache, path: string, sha256: Option<string>, hash: Hash): Cache {
    if Intact(c.files, path, hash) then c.(handed := c.handed + {c.files[path]})
    else if c.failedAt.Some? && Sub(c.clock, c.failedAt.value) < RETRY_DOWNLOAD_AFTER then c
    else if sha256.None? then c.(failedAt := Some(c.clock), started := c.started + 1)
    else c.(active := Some(Download(path, sha256.value, "", Opening)), published := c.published + {sha256.value},
            started := c.started + 1)
  }

  function Content(files: Files, name: string): string { if name in files then files[name] else "" }

  function Next(c: Cache, step: Step, hash: Hash): Cache
    requires Enabled(c, step)
  {
    match step
    case Tick => c.(clock := c.clock + 1)
    case Ask(path, sha256) => Asked(c, path, sha256, hash)
    case Open =>
      var d := c.active.value;
      c.(files := c.files[PartialPath(d.path) := ""], active := Some(d.(stage := Body)))
    case Chunk(data) =>
      var d := c.active.value;
      c.(files := c.files[PartialPath(d.path) := Content(c.files, PartialPath(d.path)) + data],
         active := Some(d.(data := d.data + data)))
    case EndBody =>
      var d := c.active.value;
      if hash(d.data) != d.sha256 then
        c.(files := c.files - {PartialPath(d.path)}, active := None, failedAt := Some(c.clock))
      else
        c.(files := c.files[ChecksumPath(d.path) := ""], verified := c.verified + {d.sha256},
           active := Some(d.(stage := Sum)))
    case WriteSum(n) =>
      var d := c.active.value;
      c.(files := c.files[ChecksumPath(d.path) := d.sha256[..n]],
         active := if n == |d.sha256| then Some(d.(stage := Summed)) else c.active)
    case Rename =>
      var d := c.active.value;
      c.(files := (c.files - {PartialPath(d.path)})[d.path := c.files[PartialPath(d.path)]],
         active := Some(d.(stage := Cleaning)))
    case Remove(name) => c.(files := c.files - {name})
    case Done => c.(handed := c.handed + {Content(c.files, c.active.value.path)}, active := None, failedAt := None)
    case Fail => c.(active := None, failedAt := Some(c.clock))
    case Crash => c.(active := None, failedAt := None)
    case Damage(name, content) => c.(files := c.files[name := content])
    case Vanish(name) => c.(files := c.files - {name})
  }

  /** The file is a checksum that a download matched, or the beginning of one. */
  predicate FromVerified(verified: set<string>, content: string) {
    exists v :: v in verified && content <= v
  }

  /** What the running download has written so far. */
  predicate Written(c: Cache, d: Download, hash: Hash) {
    && IsCopyName(d.path) && d.sha256 in c.published
    && (d.stage == Opening ==> d.data == "")
    && (d.stage in {Body, Sum, Summed} ==> PartialPath(d.path) in c.files && c.files[PartialPath(d.path)] == d.data)
    && (d.stage in {Sum, Summed, Cleaning} ==> hash(d.data) == d.sha256 && d.sha256 in c.verified)
    && (d.stage in {Summed, Cleaning} ==> ChecksumPath(d.path) in c.files && c.files[ChecksumPath(d.path)] == d.sha256)
    && (d.stage == Cleaning ==> d.path in c.files && c.files[d.path] == d.data)
  }

  predicate Sums(c: Cache, hash: Hash) {
    && (forall n :: n in c.files && IsChecksum(n) ==> FromVerified(c.verified, c.files[n]))
    && (forall v :: v in c.verified ==> |v| == 64)
    && c.verified <= c.published
    && (forall x :: x in c.handed ==> hash(x) in c.verified)
  }

  predicate Inv(c: Cache, hash: Hash) {
    Sums(c, hash) && (c.active.Some? ==> Written(c, c.active.value, hash))
  }

  lemma IntactIsVerified(c: Cache, path: string, hash: Hash)
    requires IsHash(hash) && Inv(c, hash) && Intact(c.files, path, hash)
    ensures hash(c.files[path]) in c.verified
  {
    var sum := c.files[ChecksumPath(path)];
    var v :| v in c.verified && sum <= v;
    assert |sum| == 64 && sum == v;
  }

  lemma ChecksumPathsDiffer(path: string)
    ensures ChecksumPath(path) != path && ChecksumPath(path) != PartialPath(path)
  {
    assert |ChecksumPath(path)| == |path| + 7;
  }

  lemma NextInv(c: Cache, step: Step, hash: Hash)
    requires IsHash(hash) && Inv(c, hash) && Enabled(c, step)
    ensures Inv(Next(c, step, hash), hash)
  {
    SumsKept(c, step, hash);
    if c.active.Some? {
      WrittenKept(c, c.active.value, step, hash);
    }
  }

  lemma SumsKept(c: Cache, step: Step, hash: Hash)
    requires IsHash(hash) && Inv(c, hash) && Enabled(c, step)
    ensures Sums(Next(c, step, hash), hash)
  {
    if step.Ask? && Intact(c.files, step.path, hash) {
      IntactIsVerified(c, step.path, hash);
    }
    if step.EndBody? {
      var d := c.active.value;
      forall x | FromVerified(c.verified, x) ensures FromVerified(c.verified + {d.sha256}, x) {
        var v :| v in c.verified && x <= v;
        assert v in c.verified + {d.sha256};
      }
      assert d.sha256 in c.verified + {d.sha256} && "" <= d.sha256;
    }
    if step.WriteSum? {
      var d := c.active.value;
      assert d.sha256 in c.verified && d.sha256[..step.n] <= d.sha256;
    }
  }

  lemma WrittenKept(c: Cache, d: Download, step: Step, hash: Hash)
    requires Enabled(c, step) && c.active == Some(d) && Written(c, d, hash)
    ensures var c' := Next(c, step, hash); c'.active.Some? ==> Written(c', c'.active.value, hash)
  {
    ChecksumPathsDiffer(d.path);
    if step.WriteSum? && step.n == |d.sha256| {
      assert d.sha256[..step.n] == d.sha256;
    }
  }

  predicate Init(c: Cache) {
    c.files == map[] && c.active.None? && c.failedAt.None? && c.verified == {} && c.handed == {}
  }

  predicate Legal(c: Cache, steps: seq<Step>, hash: Hash)
    decreases |steps|
  {
    steps == [] || (Enabled(c, steps[0]) && Legal(Next(c, steps[0], hash), steps[1..], hash))
  }

  function Run(c: Cache, steps: seq<Step>, hash: Hash): Cache
    requires Legal(c, steps, hash)
    decreases |steps|
  {
    if steps == [] then c else Run(Next(c, steps[0], hash), steps[1..], hash)
  }

  lemma {:induction false} RunInv(c: Cache, steps: seq<Step>, hash: Hash)
    requires IsHash(hash) && Inv(c, hash) && Legal(c, steps, hash)
    ensures Inv(Run(c, steps, hash), hash)
    decreases |steps|
  {
    if steps != [] {
      NextInv(c, steps[0], hash);
      RunInv(Next(c, steps[0], hash), steps[1..], hash);
    }
  }

  /** Whatever crashed, failed or was damaged before, the cache only hands out contents with a published checksum that a
      download was checked against, and only those are taken for good copies. */
  lemma HandsOutOnlyVerified(c: Cache, steps: seq<Step>, hash: Hash)
    requires IsHash(hash) && Init(c) && Legal(c, steps, hash)
    ensures var c' := Run(c, steps, hash);
            && c'.verified <= c'.published
            && (forall x :: x in c'.handed ==> hash(x) in c'.verified)
            && (forall path :: Intact(c'.files, path, hash) ==> hash(c'.files[path]) in c'.verified)
  {
    RunInv(c, steps, hash);
    var c' := Run(c, steps, hash);
    forall path | Intact(c'.files, path, hash) ensures hash(c'.files[path]) in c'.verified {
      IntactIsVerified(c', path, hash);
    }
  }

  /** After a failure no download starts within the retry window, unless the agent is restarted. */
  lemma {:induction false} NoRetryWithinTheWindow(c: Cache, steps: seq<Step>, hash: Hash)
    requires Legal(c, steps, hash) && forall step :: step in steps ==> !step.Crash?
    requires c.active.None? && c.failedAt.Some? && c.failedAt.value <= c.clock
    requires Run(c, steps, hash).clock < c.failedAt.value + RETRY_DOWNLOAD_AFTER
    ensures Run(c, steps, hash).started == c.started && Run(c, steps, hash).active.None?
    decreases |steps|
  {
    if steps != [] {
      ClockRuns(Next(c, steps[0], hash), steps[1..], hash);
      NoRetryWithinTheWindow(Next(c, steps[0], hash), steps[1..], hash);
    }
  }

  lemma {:induction false} ClockRuns(c: Cache, steps: seq<Step>, hash: Hash)
    requires Legal(c, steps, hash)
    ensures c.clock <= Run(c, steps, hash).clock
    decreases |steps|
  {
    if steps != [] {
      ClockRuns(Next(c, steps[0], hash), steps[1..], hash);
    }
  }

  // ---------- the cache as it runs, undisturbed ----------

  datatype Source = Hit | Filled | RecentlyFailed | Failed

  /** What the server sends, if it answers, and whether the connection lasts to the end. */
  datatype Response = Response(chunks: seq<string>, complete: bool)

  function Joined(chunks: seq<string>): string {
    if chunks == [] then "" else Joined(chunks[..|chunks| - 1]) + chunks[|chunks| - 1]
  }

  class PlatformCache {
    const hash: Hash
    var files: Files
    var failedAt: Option<nat>

    constructor (hash: Hash)
      ensures this.hash == hash && files == map[] && failedAt.None?
    {
      this.hash := hash;
      files, failedAt := map[], None;
    }

    /** On success the copy and its checksum are all that is left; on failure no other copy is touched. */
    method Fetch(path: string, sha256: string, response: Option<Response>) returns (ok: bool)
      requires IsCopyName(path)
      modifies this`files
      ensures ok <==> response.Some? && response.value.complete && hash(Joined(response.value.chunks)) == sha256
      ensures ok ==> files == map[path := Joined(response.value.chunks), ChecksumPath(path) := sha256]
      ensures !ok ==> files - {PartialPath(path)} == old(files) - {PartialPath(path)}
    {
      ChecksumPathsDiffer(path);
      if response.None? {
        return false;
      }
      var partial := PartialPath(path);
      var data := "";
      files := files[partial := ""];
      for i := 0 to |response.value.chunks|
        invariant data == Joined(response.value.chunks[..i])
        invariant partial in files && files[partial] == data
        invariant files - {partial} == old(files) - {partial}
      {
        assert response.value.chunks[..i + 1][..i] == response.value.chunks[..i];
        data := data + response.value.chunks[i];
        files := files[partial := data];
      }
      assert response.value.chunks[..|response.value.chunks|] == response.value.chunks;
      if !response.value.complete {
        return false;
      }
      if hash(data) != sha256 {
        files := files - {partial};
        return false;
      }
      files := files[ChecksumPath(path) := sha256];
      files := (files - {partial})[path := files[partial]];
      RemoveOthers(path);
      return true;
    }

    method RemoveOthers(path: string)
      modifies this`files
      ensures files == map n | n in old(files) && n in KeptFiles(path) :: old(files)[n]
    {
      var entries := files.Keys;
      while entries != {}
        invariant entries <= files.Keys <= old(files).Keys
        invariant forall n :: n in old(files) && (n in KeptFiles(path) || n in entries) ==> n in files
        invariant forall n :: n in files ==> (n in entries || n in KeptFiles(path)) && files[n] == old(files)[n]
        decreases |entries|
      {
        var entry :| entry in entries;
        entries := entries - {entry};
        if entry != path && entry != ChecksumPath(path) {
          files := files - {entry};
        }
      }
    }

    method Cached(path: string, sha256: Option<string>, response: Option<Response>, now: nat) returns (source: Source)
      requires IsCopyName(path)
      modifies this`files, this`failedAt
      ensures source == Hit <==> Intact(old(files), path, hash)
      ensures source == RecentlyFailed <==>
                !Intact(old(files), path, hash) && old(failedAt).Some?
                && Sub(now, old(failedAt).value) < RETRY_DOWNLOAD_AFTER
      ensures source in {Hit, Filled} ==> Intact(files, path, hash)
      ensures source == Filled ==> files.Keys == KeptFiles(path) && sha256 == Some(hash(files[path])) && failedAt.None?
      ensures source == Failed ==> failedAt == Some(now)
      ensures source in {Hit, RecentlyFailed} ==> files == old(files) && failedAt == old(failedAt)
    {
      if Intact(files, path, hash) {
        return Hit;
      }
      if failedAt.Some? && Sub(now, failedAt.value) < RETRY_DOWNLOAD_AFTER {
        return RecentlyFailed;
      }
      var ok := false;
      if sha256.Some? {
        ok := Fetch(path, sha256.value, response);
      }
      failedAt := if ok then None else Some(now);
      ChecksumPathsDiffer(path);
      source := if ok then Filled else Failed;
    }
  }
}
