/**
 Grace periods over streaks of observations: runners whose VM is missing from their agent's statuses
 (kuiper-forge/src/runner_state.rs) and agents that stay offline (the sweep in kuiper-forge/src/main.rs). Clocks are
 monotone and runner names aren't reused.
 */
module Streaks {
  import opened Common

  // ---------- missing VMs ----------

  /** One status of an agent: its recorded runners with their VMs, the VMs it lists, and when. */
  datatype Call = Call(rows: map<string, string>, vms: set<string>, now: nat) {
    predicate Absent(name: string) { name in rows && rows[name] !in vms }

    predicate Present(name: string) { name in rows && rows[name] in vms }
  }

  function SinceOf(since: map<string, nat>, name: string, now: nat): nat {
    if name in since then since[name] else now
  }

  predicate IsMissing(since: map<string, nat>, c: Call, grace: nat, name: string) {
    c.Absent(name) && Sub(c.now, SinceOf(since, name, c.now)) >= grace
  }

  /** Runners whose VM is missing for the whole grace period by now. */
  function Missing(since: map<string, nat>, c: Call, grace: nat): set<string> {
    set n | n in c.rows && IsMissing(since, c, grace, n)
  }

  predicate Remembers(since: map<string, nat>, c: Call, grace: nat, name: string) {
    if name in c.rows then c.Absent(name) && !IsMissing(since, c, grace, name) else name in since
  }

  function Remembered(since: map<string, nat>, c: Call, grace: nat): map<string, nat> {
    map n | n in since.Keys + c.rows.Keys && Remembers(since, c, grace, n) :: SinceOf(since, n, c.now)
  }

  /** What is remembered before call `k`. */
  function Before(calls: seq<Call>, k: nat, grace: nat): map<string, nat>
    requires k <= |calls|
  {
    if k == 0 then map[] else Remembered(Before(calls, k - 1, grace), calls[k - 1], grace)
  }

  predicate Reported(calls: seq<Call>, k: nat, name: string, grace: nat)
    requires k < |calls|
  {
    IsMissing(Before(calls, k, grace), calls[k], grace, name)
  }

  predicate Monotone(calls: seq<Call>) {
    forall i, j :: 0 <= i < j < |calls| ==> calls[i].now <= calls[j].now
  }

  /** Call `k` neither found the runner's VM nor reported the runner. */
  predicate Quiet(calls: seq<Call>, k: nat, name: string, grace: nat)
    requires k < |calls|
  {
    !calls[k].Present(name) && !Reported(calls, k, name, grace)
  }

  /** Since the VM was found absent in call `i`, all calls before `k` were quiet. */
  predicate Streak(calls: seq<Call>, i: nat, k: nat, name: string, grace: nat) {
    && i < k <= |calls| && calls[i].Absent(name)
    && forall j :: i <= j < k ==> Quiet(calls, j, name, grace)
  }

  /** The time remembered for a runner is that of the first call of its streak. */
  lemma {:induction false} RemembersTheStreak(calls: seq<Call>, k: nat, name: string, grace: nat)
    requires Monotone(calls) && k <= |calls|
    ensures name in Before(calls, k, grace) ==>
              exists i :: 0 <= i < k && calls[i].now == Before(calls, k, grace)[name]
                          && Streak(calls, i, k, name, grace)
    ensures forall i :: 0 <= i < k && Streak(calls, i, k, name, grace) ==>
              name in Before(calls, k, grace) && Before(calls, k, grace)[name] <= calls[i].now
  {
    if k > 0 {
      RemembersTheStreak(calls, k - 1, name, grace);
      assert name in Before(calls, k - 1, grace) ==> Before(calls, k - 1, grace)[name] <= calls[k - 1].now;
      forall i | 0 <= i < k - 1
        ensures Streak(calls, i, k, name, grace)
                <==> Streak(calls, i, k - 1, name, grace) && Quiet(calls, k - 1, name, grace)
      {
      }
      assert Streak(calls, k - 1, k, name, grace) ==> Quiet(calls, k - 1, name, grace);
      assert name in Before(calls, k, grace) ==>
               Before(calls, k, grace)[name] == SinceOf(Before(calls, k - 1, grace), name, calls[k - 1].now);
      if name in Before(calls, k, grace) {
        if name in Before(calls, k - 1, grace) {
          var i :| 0 <= i < k - 1 && calls[i].now == Before(calls, k - 1, grace)[name]
                   && Streak(calls, i, k - 1, name, grace);
          assert Streak(calls, i, k, name, grace);
        } else {
          assert Streak(calls, k - 1, k, name, grace);
        }
      }
    }
  }

  /** A runner is reported missing exactly when, for at least the grace period, no status of its agent had its VM and it
      hadn't been reported yet. */
  lemma {:induction false} ReportedIffMissingAllAlong(calls: seq<Call>, k: nat, name: string, grace: nat)
    requires Monotone(calls) && k < |calls|
    ensures Reported(calls, k, name, grace) <==>
            && calls[k].Absent(name)
            && (grace == 0 ||
                exists i :: 0 <= i < k && calls[i].now + grace <= calls[k].now && Streak(calls, i, k, name, grace))
  {
    RemembersTheStreak(calls, k, name, grace);
    if Reported(calls, k, name, grace) && grace > 0 {
      var i :| 0 <= i < k && calls[i].now == Before(calls, k, grace)[name] && Streak(calls, i, k, name, grace);
      assert calls[i].now + grace <= calls[k].now;
    }
  }

  lemma LooksComplete(since: map<string, nat>, c: Call, grace: nat, left: map<string, nat>, missing: set<string>)
    requires forall n :: n in missing <==> n in c.rows && IsMissing(since, c, grace, n)
    requires forall n :: n in left <==> Remembers(since, c, grace, n)
    requires forall n :: n in left ==> left[n] == SinceOf(since, n, c.now)
    ensures missing == Missing(since, c, grace) && left == Remembered(since, c, grace)
  {
  }

  class RunnerStateStore {
    const missingGrace: nat
    var missingSince: map<string, nat>

    constructor (missingGrace: nat)
      ensures this.missingGrace == missingGrace && missingSince == map[]
    {
      this.missingGrace := missingGrace;
      missingSince := map[];
    }

    method ReconcileAgentVms(c: Call) returns (missing: set<string>)
      modifies this`missingSince
      ensures missing == Missing(old(missingSince), c, missingGrace)
      ensures missingSince == Remembered(old(missingSince), c, missingGrace)
    {
      missing := {};
      ghost var since0 := missingSince;
      var todo := c.rows.Keys;
      while todo != {}
        invariant todo <= c.rows.Keys
        invariant forall n :: n in missing <==> n in c.rows && n !in todo && IsMissing(since0, c, missingGrace, n)
        invariant forall n :: n in missingSince <==>
                    if n in c.rows && n !in todo then Remembers(since0, c, missingGrace, n) else n in since0
        invariant forall n :: n in missingSince ==> missingSince[n] == SinceOf(since0, n, c.now)
        decreases |todo|
      {
        var name :| name in todo;
        todo := todo - {name};
        var reported := Observe(name, c);
        if reported {
          missing := missing + {name};
        }
      }
      LooksComplete(since0, c, missingGrace, missingSince, missing);
    }

    method Observe(name: string, c: Call) returns (reported: bool)
      requires name in c.rows
      modifies this`missingSince
      ensures reported <==> IsMissing(old(missingSince), c, missingGrace, name)
      ensures missingSince == if c.Absent(name) && !reported
                              then old(missingSince)[name := SinceOf(old(missingSince), name, c.now)]
                              else old(missingSince) - {name}
    {
      if c.rows[name] in c.vms {
        missingSince := missingSince - {name};
        return false;
      }
      var since := SinceOf(missingSince, name, c.now);
      missingSince := missingSince[name := since];
      if Sub(c.now, since) < missingGrace {
        return false;
      }
      missingSince := missingSince - {name};
      assert missingSince == old(missingSince) - {name};
      return true;
    }
  }

  // ---------- agents that stay offline ----------

  /** Seconds */
  const OFFLINE_GRACE: nat := 300

  /** What a tick of the sweep finds: each recorded runner's agent, and the connected agents. */
  datatype Tick = Tick(runners: map<string, string>, connected: set<string>, now: nat) {
    function OrphanedAgents(): set<string> { set n | n in runners && runners[n] !in connected :: runners[n] }

    predicate Orphaned(agent: string) { agent in OrphanedAgents() }
  }

  function Offline(since: map<string, nat>, t: Tick): map<string, nat> {
    map a | a in t.OrphanedAgents() :: SinceOf(since, a, t.now)
  }

  /** What is remembered before tick `k`. */
  function OfflineBefore(ticks: seq<Tick>, k: nat): map<string, nat>
    requires k <= |ticks|
  {
    if k == 0 then map[] else Offline(OfflineBefore(ticks, k - 1), ticks[k - 1])
  }

  /** This tick reports the agent's runners as destroyed. */
  predicate Fires(since: map<string, nat>, t: Tick, agent: string) {
    t.Orphaned(agent) && Sub(t.now, SinceOf(since, agent, t.now)) >= OFFLINE_GRACE
  }

  predicate MonotoneTicks(ticks: seq<Tick>) {
    forall i, j :: 0 <= i < j < |ticks| ==> ticks[i].now <= ticks[j].now
  }

  /** Every tick from `i` on and before `k` found the agent offline. */
  predicate OfflineFrom(ticks: seq<Tick>, i: nat, k: nat, agent: string) {
    i < k <= |ticks| && forall j :: i <= j < k ==> ticks[j].Orphaned(agent)
  }

  lemma {:induction false} RemembersOffline(ticks: seq<Tick>, k: nat, agent: string)
    requires MonotoneTicks(ticks) && k <= |ticks|
    ensures agent in OfflineBefore(ticks, k) ==>
              exists i :: 0 <= i < k && ticks[i].now == OfflineBefore(ticks, k)[agent]
                          && OfflineFrom(ticks, i, k, agent)
    ensures forall i :: 0 <= i < k && OfflineFrom(ticks, i, k, agent) ==>
              agent in OfflineBefore(ticks, k) && OfflineBefore(ticks, k)[agent] <= ticks[i].now
  {
    if k > 0 {
      RemembersOffline(ticks, k - 1, agent);
      assert forall i :: 0 <= i < k - 1 ==>
               (OfflineFrom(ticks, i, k, agent)
                <==> OfflineFrom(ticks, i, k - 1, agent) && ticks[k - 1].Orphaned(agent));
      if agent in OfflineBefore(ticks, k) {
        if agent in OfflineBefore(ticks, k - 1) {
          var i :| 0 <= i < k - 1 && ticks[i].now == OfflineBefore(ticks, k - 1)[agent]
                   && OfflineFrom(ticks, i, k - 1, agent);
          assert OfflineFrom(ticks, i, k, agent);
        } else {
          assert OfflineFrom(ticks, k - 1, k, agent);
        }
      }
      assert agent in OfflineBefore(ticks, k) ==>
               OfflineBefore(ticks, k)[agent] == SinceOf(OfflineBefore(ticks, k - 1), agent, ticks[k - 1].now);
    }
  }

  /** The sweep gives up an agent's runners exactly when every tick over at least the grace period found it offline. */
  lemma {:induction false} FiresIffOfflineAllAlong(ticks: seq<Tick>, k: nat, agent: string)
    requires MonotoneTicks(ticks) && k < |ticks|
    ensures Fires(OfflineBefore(ticks, k), ticks[k], agent) <==>
            exists i :: 0 <= i < k && ticks[i].now + OFFLINE_GRACE <= ticks[k].now
                        && OfflineFrom(ticks, i, k + 1, agent)
  {
    RemembersOffline(ticks, k, agent);
    if Fires(OfflineBefore(ticks, k), ticks[k], agent) {
      var i :| 0 <= i < k && ticks[i].now == OfflineBefore(ticks, k)[agent] && OfflineFrom(ticks, i, k, agent);
      OneMoreTick(ticks, i, k, agent);
      assert ticks[i].now + OFFLINE_GRACE <= ticks[k].now;
    }
    if i :| 0 <= i < k && ticks[i].now + OFFLINE_GRACE <= ticks[k].now && OfflineFrom(ticks, i, k + 1, agent) {
      OneMoreTick(ticks, i, k, agent);
    }
  }

  lemma OneMoreTick(ticks: seq<Tick>, i: nat, k: nat, agent: string)
    requires i < k < |ticks|
    ensures OfflineFrom(ticks, i, k + 1, agent) <==> OfflineFrom(ticks, i, k, agent) && ticks[k].Orphaned(agent)
  {
  }

  class OrphanSweep {
    var offlineSince: map<string, nat>

    constructor ()
      ensures offlineSince == map[]
    {
      offlineSince := map[];
    }

    /** Returns the runners to report as destroyed, by name. */
    method OnTick(t: Tick) returns (destroyed: set<string>)
      modifies this`offlineSince
      ensures offlineSince == Offline(old(offlineSince), t)
      ensures destroyed == set n | n in t.runners && Fires(old(offlineSince), t, t.runners[n])
    {
      var orphaned := t.OrphanedAgents();
      ghost var since0 := offlineSince;
      offlineSince := map a | a in offlineSince && a in orphaned :: offlineSince[a];
      destroyed := {};
      var todo := orphaned;
      while todo != {}
        invariant todo <= orphaned
        invariant forall a :: a in offlineSince <==> a in orphaned && (a in since0 || a !in todo)
        invariant forall a :: a in offlineSince ==> offlineSince[a] == SinceOf(since0, a, t.now)
        invariant forall n :: n in destroyed <==>
                    n in t.runners && t.runners[n] !in todo && Fires(since0, t, t.runners[n])
        decreases |todo|
      {
        var agent :| agent in todo;
        todo := todo - {agent};
        var fires := Observe(agent, t);
        if fires {
          destroyed := destroyed + set n | n in t.runners && t.runners[n] == agent;
        }
      }
    }

    method Observe(agent: string, t: Tick) returns (fires: bool)
      requires agent in t.OrphanedAgents()
      modifies this`offlineSince
      ensures offlineSince == old(offlineSince)[agent := SinceOf(old(offlineSince), agent, t.now)]
      ensures fires <==> Fires(old(offlineSince), t, agent)
    {
      var since := SinceOf(offlineSince, agent, t.now);
      offlineSince := offlineSince[agent := since];
      fires := Sub(t.now, since) >= OFFLINE_GRACE;
    }
  }
}
