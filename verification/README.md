# Kuiper Forge, verified

A Dafny model of the coordinator's scheduler in Kuiper Forge and of the agent-side code it has to agree with, with
proofs of what the scheduler promises. `dafny verify dfyconfig.toml` checks the whole project.

Kuiper Forge runs single-use CI runners in VMs. Agents on VM hosts connect to a coordinator and report their VMs, their
label sets and their limits; the coordinator finds queued jobs on GitHub and Forgejo, picks an agent with room, reserves
a slot, registers a runner and has the agent create its VM. Everything it decides rests on bookkeeping that lags behind
the hosts and is changed by several concurrent tasks.

## How the model is laid out

Each subject has a specification on values (datatypes and functions, and a step system where several parties act) and,
where the source updates objects in place, a class whose methods are proved to do what the specification says.

| file | subject |
|---|---|
| `Labels`, `Capacity`, `Agreement` | which label set a runner is made from, as the agent and as the coordinator work it out, and the limits it counts against |
| `Overcommit`, `LateStarts` | an agent's host against the coordinator's accounts, over whole runs, and with VMs that start late |
| `Failover`, `Pools`, `Registry` | connections and failover claims; fixed-capacity pools; the agent registry's objects |
| `Lifecycle` | jobs, runners, slots and retries as a step system, one store call at a time, with restarts |
| `Runners`, `Charges`, `Retries` | what holds of it on every run: records and reservations; what a runner costs its job; a job's retries |
| `Fleet` | the fleet loop's handlers, undisturbed, against those steps |
| `Drain`, `FixedCapacity` | retiring the runners of unavailable agents; topping up pools |
| `Forgejo`, `Polls` | listing jobs on a Forgejo instance; scans, and what makes a pending job go |
| `Streaks` | grace periods: missing VMs, offline agents |
| `LogUpload`, `LogPaging` | shipping an agent's log lines; storing, paging and pruning them |
| `RunnerCache`, `Shell` | cached runner downloads under crashes; quoting for remote shells |
| `Common`, `Text`, `Forge` | iterator idioms; ASCII case folding and string order; job keys and forge answers |

## Main results

- **No over-commitment.** On every run of reserving, releasing, starting and stopping VMs, reporting, and applying a
  report in its three separate steps, the VMs that run stay within every limit less what others use of it, thanks to the
  agent's own check. If slots are only released, and VMs only start, while their bookkeeping is in step, the same holds
  of running VMs and reservations together, and the agent never turns down a runner it was sent. That rests on the
  coordinator's re-implementation of label matching agreeing with the agent's, a refinement between two different
  algorithms.
- **One runner per job**, for every interleaving of the fleet loop with command tasks, events, webhooks, status messages,
  teardowns, drains, recovery and restarts.
- **Reservations** have their runner's record, or are just being made or given back, except exactly those whose record
  recovery removed.
- **Retries.** What a runner costs its job, on any run with restarts, is exactly the failures of its command and of its
  events that were to be counted, less those still open, lost to a restart, or counted after the job had left the queue:
  at most one for the command, and for events at most one more than the restarts that came between a count and the
  removal of the record. A pending job is at the limit, with nobody about to give it up, exactly if the coordinator
  restarted when it was.
- **Scans.** Exactly when a pending job leaves the queue. In the verification: if its forge, asked about that very job,
  no longer has it pending; if that forge isn't configured any more; or if it has no repository to ask by and is over a
  day old. Failing scopes, forges and requests remove nothing. In the pass over the pending jobs within the scan: under
  conditions spelled out.
- **Draining cuts no job short**, with the forge free to act between any two steps, and not with a shorter grace.
- **Logs.** Every line is exactly one of waiting, in flight, acknowledged, counted as dropped or discarded; a failed
  upload is invisible; paging lists every line exactly once precisely when keys are distinct.
- **Grace periods and the runner cache** do what they are for over any history, including crashes at any file operation.

## What turned out not to hold

These are behaviours of the code, stated as they are:

- One runner can cost its job two retries: once through its command timing out and once through an event
  (`Charges.BothFailuresAreCounted`), or through two events with a restart between the count of the first and the removal
  of the record (`Charges.EventsAloneCostTwo`). These are the only ways (`Charges.RetriesOfARunner`), and without
  restarts only the first (`Charges.TwoRetriesIffBothFail`).
- Recovery after a reconnect removes a runner's record but not its reservation (`Runners.RecoveryLeaksASlot`), and nothing
  else leaves one behind (`Runners.SlotLeaksIffRecovered`). Reconciling the agent's reservations once they are old enough
  drops exactly those (`Runners.ReconcilingRepairsLeaks`).
- A job that enters the queue while a failure of it from before is still being dealt with can be given up before the
  limit, or blame more agents than it has retries; at any other time it can't (`Retries.AddedIsWrongedIffTooEarly`).
  That time does come (`Retries.AddedCanBeWronged`).
- A restart forgets idle teardowns, so a runner torn down before it can cost its job a retry after it
  (`Charges.RestartForgetsTeardowns`).
- A scan does lose jobs that still wait. The pass within it drops a job that its forge reports as "waiting", which the
  verification keeps (`Polls.WaitingIsDropped`), and abandons one whose runner can't be registered for the third time
  (`Polls.NotGoneIsLostOnlyInPass`, `Polls.WaitingForgejoJobStaysIff`).
- A VM that starts after its command timed out, and its slot was given to another, leaves more running and reserved than
  the host has slots (`LateStarts.LateStartOvercommits`): exactly if the agent has no slot to spare beyond the
  reservations outstanding (`LateStarts.LateStartIsSafeIff`). The host isn't overrun, the agent turns the other one down.
- A status counts each VM once, as running or reserved, only if its count and its list of VMs were read with nothing in
  between; otherwise the accounts are off by what came or went (`Capacity.StatusThenSettleCountsOnceIff`).
- PowerShell takes four curly quotes for single quotes, which `escape_powershell` leaves alone: strings with them, and
  only those, don't come back (`Shell.EscapePowershellRoundTripsIff`, `Shell.CurlyQuoteEndsTheString`).
- Keyset paging skips lines that share timestamp and sequence number when a page ends between them, and never shows one
  at the largest possible key (`LogPaging.PagingIsExact`). Pruning then keeps fewer than the cap
  (`LogPaging.TrimKeepsTheNewest`).
- The doc comment of `Capability::labels` says they are de-duplicated. Labels a mapping adds are; the base labels
  themselves aren't (`Labels.AddLabelsNoDuplicates`).

## Model

| member | source | states |
|---|---|---|
| `Labels.SelectMapping` | kuiper-agent-lib/src/labels.rs:42-65 | the chosen mapping is the first one that adds a label the job asks for and covers the job with the base labels; none is chosen only if none does |
| `Labels.BuildLabelSet` | kuiper-agent-lib/src/labels.rs:99-105 | the loop that builds an advertised set gives the base labels followed by the mapping's labels that weren't there yet, lowercased |
| `Labels.AddLabelsHasBoth` | kuiper-agent-lib/src/labels.rs:93-105 | an advertised set has a label, in any case, exactly if the base labels or the mapping have it |
| `Labels.AddLabelsNoDuplicates` | kuiper-agent-lib/src/labels.rs:70-105 | an advertised set has duplicates only if the base labels had |
| `Agreement.AgentAndCoordinatorAgree` | kuiper-forge/src/agent_registry.rs:261-287 | for every base, mapping list, set id and job, the agent's choice of mapping k is the coordinator's selected set k, and its default is the default set or no set; no set is selected only if none covers the job |
| `Agreement.LabelsAgree` | kuiper-agent-lib/src/labels.rs:42-65 | without a set id, selection by labels agrees on both sides |
| `Agreement.PicksIffApplies` | kuiper-forge/src/agent_registry.rs:270-280 | set i passes the coordinator's test on advertised sets exactly if mapping i passes the agent's on its own configuration |
| `Agreement.UsedSetCovers` | kuiper-agent-lib/src/labels.rs:124-147 | the set the agent creates a runner from covers every job the coordinator matches to it, also when no default is advertised |
| `Agreement.ReservationCoversUse` | kuiper-forge/src/agent_registry.rs:289-312 | whatever set the agent really uses, the reservation counts against all of that set's limits |
| `Capacity.HasCapacityMeansRoomEverywhere` | kuiper-forge/src/agent_registry.rs:375-396 | a slot is to be had exactly if the agent is available, below `max_vms`, and every limit the runner counts against has one left |
| `Capacity.StatusThenSettleCountsOnceIff` | kuiper-forge/src/agent_registry.rs:829-901 | for every status, active plus reserved after it is applied and settled is the size of the union of listed VMs and reservations exactly if its count is that of its list, and else off by the difference |
| `Capacity.MatchesIffSetSelected` | kuiper-forge/src/agent_registry.rs:433-443 | with the base labels as default set, a job matches an agent exactly if some set is selected for it |
| `Capacity.AvailableWithinCeiling` | kuiper-forge/src/agent_registry.rs:331-396 | for every agent and job, available capacity is at most the ceiling, and that and the effective maximum at most `max_vms` |
| `Capacity.CapacityOrdering` | kuiper-forge/src/agent_registry.rs:331-352 | the ceiling is at most the effective maximum, if limits are known of a set the job may be run from |
| `Capacity.MatchedLimitsKnown` | kuiper-forge/src/agent_registry.rs:291-305 | which is so for every job an agent matches, once sets and limits are of one status |
| `Capacity.UnknownDefaultTakesTheLeast` | kuiper-forge/src/agent_registry.rs:289-312 | without a known default set, the capacity for a job is the least over the sets that cover it, those without a limit list included |
| `Overcommit.NeverOvercommitted` | kuiper-forge/src/agent_registry.rs:382-425 | on every run without late releases and starts, running VMs and reservations together stay within `max_vms` and within every limit less its outside use |
| `Overcommit.NeverTurnedDown` | kuiper-agent-lib/src/vm_agent/tracker.rs:133-162 | on such a run the agent's check accepts every runner whose slot is held |
| `Overcommit.RunInv` | kuiper-forge/src/agent_registry.rs:829-925 | every run keeps the accounts: a running VM is reserved or in every list in use, and each reservation is charged with every limit its VM will use |
| `Overcommit.ReserveSafe` | kuiper-forge/src/agent_registry.rs:400-419 | a reservation granted by the coordinator's accounts is safe on the real host |
| `Overcommit.InUseBound` | kuiper-forge/src/agent_registry.rs:253-327 | what is really in use of a limit is at most the active plus reserved the coordinator counts |
| `LateStarts.HostNeverOverrun` | kuiper-agent-lib/src/vm_agent/mod.rs:359-372 | on every run, late releases and starts included, the VMs that run stay within every limit less its outside use, and within `max_vms` if a limit all VMs count against is no larger |
| `LateStarts.NestedSetsHaveTotal` | kuiper-agent-lib/src/vm_agent/mod.rs:641-656 | there is such a limit for `max_vms` as the agent works it out, if one set's limits are among every other's |
| `LateStarts.LateStartIsSafeIff` | kuiper-agent-lib/src/vm_agent/tracker.rs:133-162 | a late start that the agent accepts leaves the accounts sound exactly if the agent has more free slots, of each bound the VM counts against, than reservations are outstanding there |
| `LateStarts.LateStartOvercommits` | kuiper-forge/src/fleet.rs:1583-1612 | on a host with one slot, a runner whose command timed out starts after its slot went to another: the accounts exceed the host, the host is within bounds, and the other runner is turned down |
| `LateStarts.SingleSlotExists` | kuiper-forge/src/agent_registry.rs:497-545 | there is such a host |
| `Failover.ConnectedHaveNoStamp` | kuiper-forge/src/agent_registry.rs:497-597 | connected agents and recorded disconnects are disjoint after any events |
| `Failover.ClaimSucceedsIff` | kuiper-forge/src/agent_registry.rs:589-597 | a claim succeeds exactly if its disconnect happened and since then the agent neither came back nor dropped again nor was claimed |
| `Failover.ClaimedAtMostOnce` | kuiper-forge/src/agent_registry.rs:575-597 | no disconnect is claimed twice |
| `Pools.SamePoolIffSameLabels` | kuiper-forge/src/agent_registry.rs:1167-1171 | normalized labels are equal exactly if the labels are the same up to order and case |
| `Pools.KeyIsInjective` | kuiper-forge/src/agent_registry.rs:1217-1224 | for plain labels, a pool's key determines its labels and set id |
| `Pools.ExplicitPoolsAreTheSized` | kuiper-forge/src/agent_registry.rs:1131-1145 | an agent's own pools are its label sets with a positive pool size |
| `Pools.LegacyPoolsPartition` | kuiper-forge/src/agent_registry.rs:1117-1164 | every available agent without pools of its own is in exactly one legacy pool, no other agent in any |
| `Registry.ConnectedAgent.ReserveSlot` | kuiper-forge/src/agent_registry.rs:400-419 | a slot is reserved exactly if there is capacity, else nothing changes |
| `Registry.AgentRegistry.Register` | kuiper-forge/src/agent_registry.rs:497-545 | a connecting agent replaces its old entry, loses its stamp and keeps its unavailability |
| `Registry.AgentRegistry.Unregister` | kuiper-forge/src/agent_registry.rs:551-585 | a disconnect removes the agent and records its stamp |
| `Registry.AgentRegistry.ClaimFailover` | kuiper-forge/src/agent_registry.rs:589-597 | the in-place claim is the claim of the disconnect laws |
| `Registry.AgentRegistry.SetUnavailable` | kuiper-forge/src/agent_registry.rs:946-975 | the mark is kept for the id and put on the agent if it is connected |
| `Registry.AgentRegistry.ApplyStatus` | kuiper-forge/src/server.rs:717-730 | a status message sets limits, then counts, then settles reservations |
| `Registry.AgentRegistry.ReconcileReservations` | kuiper-forge/src/agent_registry.rs:1023-1049 | the loop drops exactly the reservations that are old enough and have no record |
| `Registry.AgentRegistry.GetPoolDefinitions` | kuiper-forge/src/agent_registry.rs:1117-1164 | the pools are exactly those the agents make, whatever order a hash map lists them in, with one legacy pool per labels |
| `Registry.AgentRegistry.SelectAgentWhere` | kuiper-forge/src/agent_registry.rs:638-713 | the agent found comes before every other eligible one; none is found only if none is eligible |
| `Registry.BestIsUnique` | kuiper-forge/src/agent_registry.rs:638-713 | the choice doesn't depend on the order agents are visited in |
| `Registry.OnePoolPerLegacyOffer` | kuiper-forge/src/agent_registry.rs:1117-1164 | each agent's legacy offer is counted in exactly one listed pool, whose target has room for its ceiling |
| `Registry.OwnKeysDifferIff` | kuiper-forge/src/agent_registry.rs:1131-1145 | with plain labels, no agent has two own pools with one key exactly if its sized label sets differ in labels or id |
| `Registry.AvoidedIsLastResort` | kuiper-forge/src/agent_registry.rs:617-713 | an agent that failed the job is only chosen if no other is eligible |
| `Registry.CollectPools` | kuiper-forge/src/agent_registry.rs:1117-1164 | adding up ceilings agent by agent gives each legacy pool the total over its members |
| `Registry.AgentRegistry.PlaceRunner` | kuiper-forge/src/fleet.rs:1203-1232 | undisturbed, choosing the best agent and reserving a slot on it fails only if no agent is eligible, and changes no other agent |
| `Runners.OneRunnerPerJob` | kuiper-forge/src/fleet.rs:1064-1182 | on every run, restarts included, a job has at most one runner record |
| `Runners.NextInv` | kuiper-forge/src/fleet.rs:1064-2036 | every step of every party keeps records unique per job, owned, and removed only after their reservation |
| `Runners.SlotLeaksIffRecovered` | kuiper-forge/src/fleet.rs:1225-1309 | on every run, a reservation the fleet loop isn't just making or giving back lacks its record exactly if recovery removed that, and else has it on the same agent |
| `Runners.RecoveredMeans` | kuiper-forge/src/fleet.rs:1672-1704 | a record counts as removed by recovery exactly if some step of the run did that |
| `Runners.RecoveryLeaksASlot` | kuiper-forge/src/fleet.rs:1672-1704 | for every agent and name, a state with a reservation without a record is reachable from an empty coordinator |
| `Runners.ReconcilingRepairsLeaks` | kuiper-forge/src/agent_registry.rs:1021-1049 | dropping an agent's old reservations without a record drops exactly the leaked ones |
| `Charges.EachCountedAtMostOnce` | kuiper-forge/src/fleet.rs:1747-2035 | over any run, a runner's events are counted at most once, never after an idle teardown or a handled completion, and its command at most once, unless a restart comes between the count and the removal of the record |
| `Charges.CountsAreExact` | kuiper-forge/src/fleet.rs:1377-2015 | over any run, failures counted, still to be counted and lost to restarts are exactly those that arose: events taken of a recorded runner that nobody tore down, and failing answers |
| `Charges.RetriesOfARunner` | kuiper-forge/src/fleet.rs:1377-2015 | over any run with restarts, what a runner costs its job is what arose less what is open, lost, or found the job gone; at most one for the command, at most one more than the recounting restarts for events; two exactly if one of each, or two events and no command |
| `Charges.EventsAloneCostTwo` | kuiper-forge/src/fleet.rs:1836-2015 | for every job, agent and name, a state with two retries from events alone is reachable from an empty coordinator |
| `Charges.MissesMean` | kuiper-forge/src/pending_jobs.rs:193-223 | the misses recorded are exactly the counts that found the job gone |
| `Charges.RecountedMeans` | kuiper-forge/src/fleet.rs:1836-2015 | a runner is recounted exactly if some restart found its record though a failure of it had been counted |
| `Charges.SparedMeans` | kuiper-forge/src/fleet.rs:1753-1774 | a runner is spared exactly if it was torn down for idling or its completion taken up, and no restart has found its record since |
| `Charges.TwoRetriesIffBothFail` | kuiper-forge/src/fleet.rs:1583-1620 | between restarts a runner costs two retries if and only if an event to be counted was taken, its command failed, and the job was pending at both counts; never more |
| `Charges.BothFailuresAreCounted` | kuiper-forge/src/fleet.rs:1583-1620 | for every job, agent and name, a state with two retries from one runner is reachable from an empty coordinator |
| `Charges.RestartForgetsTeardowns` | kuiper-forge/src/fleet.rs:1753-1774 | a runner torn down for idling can be counted as failed after a restart |
| `Retries.RetriesAreAccounted` | kuiper-forge/src/pending_jobs.rs:193-252 | at every moment a pending job's retries are the failures put down to somebody, its failed agents are distinct, and unless somebody is about to give it up it is at the limit exactly if a restart came then |
| `Retries.OverdueMeans` | kuiper-forge/src/pending_jobs.rs:193-252 | a job is overdue exactly if some restart found it at the limit and it hasn't left the queue since |
| `Retries.NobodyIsWronged` | kuiper-forge/src/fleet.rs:1377-1407 | if no job is added while a failure of it is being dealt with, failed agents never outnumber retries and no job is given up before the limit |
| `Retries.AddedIsWrongedIffTooEarly` | kuiper-forge/src/pending_jobs.rs:226-252 | a job just added can come to either exactly if somebody was still dealing with a failure of it from before |
| `Retries.AddedCanBeWronged` | kuiper-forge/src/fleet.rs:1377-1407 | for every job, agent and name, a run from an empty coordinator leads to a job that left the queue with a failure half dealt with, and can be wronged if added then |
| `Fleet.CountingCharges` | kuiper-forge/src/fleet.rs:1377-1407 | the store calls of a failure, undisturbed, count it and remember the agent, or take the job off at the limit |
| `Fleet.CommandEffect` | kuiper-forge/src/fleet.rs:1410-1622 | after any answer but acceptance, record and reservation of that runner are gone, the job is charged exactly for failures, and nothing else changed |
| `Fleet.EventEffect` | kuiper-forge/src/fleet.rs:1747-2015 | after a first terminal event, record and reservation are gone, and the job is charged exactly if the runner failed and wasn't torn down for idling |
| `Fleet.EventIsRun` | kuiper-forge/src/fleet.rs:1710-2015 | the handling of an event, undisturbed, is a run of the step system |
| `Fleet.PassIsRun` | kuiper-forge/src/fleet.rs:1064-1182 | a pass over the pending jobs, undisturbed, is a run of the step system |
| `Fleet.PassOnJob` | kuiper-forge/src/fleet.rs:1064-1182 | a pass leaves each listed job as its own turn would have from the start, and all others alone |
| `Fleet.PassDropsIff` | kuiper-forge/src/fleet.rs:1083-1171 | a pass takes a job off the queue exactly if it was at the limit, or it came to making a runner and the forge no longer had it queued or the last attempt failed |
| `Fleet.PassServesIff` | kuiper-forge/src/fleet.rs:1103-1309 | after a pass a job has a runner exactly if it had one, or wasn't held back, an agent was found, and the forge had it queued or couldn't be asked and registered a runner |
| `Fleet.OverdueIsGivenUp` | kuiper-forge/src/fleet.rs:1084-1094 | an undisturbed scan takes every job at the limit off the queue |
| `Fleet.BackoffDoubles` | kuiper-forge/src/fleet.rs:64-70 | the n-th delay in a row is the idle timeout doubled n - 1 times, at most an hour |
| `Fleet.FleetManager.IncrementRetryCount` | kuiper-forge/src/pending_jobs.rs:193-252 | the count of a pending job goes up by one and the failed agent is remembered once |
| `Fleet.FleetManager.HandleRunnerEvent` | kuiper-forge/src/fleet.rs:1710-2036 | stores and memory end as the event's program says, and a pass over what is then pending follows, unless there was nothing to handle |
| `Fleet.FleetManager.CreateRunnerOnDemand` | kuiper-forge/src/fleet.rs:1189-1309 | it errs exactly on a refusal or a failed registration of a job still queued; every exit leaves either record and reservation or neither |
| `Fleet.FleetManager.ProcessPendingJobs` | kuiper-forge/src/fleet.rs:1064-1182 | the loop does a pass over all pending jobs, each once |
| `Drain.CutsNoJobShort` | kuiper-forge/src/fleet.rs:2158-2263 | if runners register within the grace or never, a drained runner is a pool runner that isn't at work, and on no continuation is it given work |
| `Drain.LateRegistrationIsCutShort` | kuiper-forge/src/fleet.rs:96-117 | if runners may register later than the grace, a runner at work can be destroyed |
| `Drain.LateRegistrationIsReached` | kuiper-forge/src/fleet.rs:96-117 | and that is reached from the start, for every name, agent and longer bound |
| `Drain.NextInv` | kuiper-forge/src/github.rs:636-704 | every step of drain and forge keeps a forge's answer true until it is acted upon: removed runners stay removed, unregistered ones past the grace stay unregistered |
| `FixedCapacity.FleetManager.CountRunnersForPool` | kuiper-forge/src/fleet.rs:2309-2331 | summing per agent counts exactly the runners of the pool |
| `FixedCapacity.FleetManager.ReconcilePool` | kuiper-forge/src/fleet.rs:2337-2506 | a pool's count ends at most at the larger of before and target, and no other pool's count grows |
| `FixedCapacity.FleetManager.Reconcile` | kuiper-forge/src/fleet.rs:2126-2150 | after a pass over pools with distinct keys, none is above both its target and what it had |
| `FixedCapacity.FleetManager.ReconcileConnected` | kuiper-forge/src/fleet.rs:2126-2150 | the same of the pools that the registry gives, if no agent has two of its own with one key |
| `FixedCapacity.DifferentKeysAreApart` | kuiper-forge/src/fleet.rs:2307-2331 | pools share runners exactly if they have one key, or are legacy pools with members |
| `FixedCapacity.OwnPoolsAreOwnedRightly` | kuiper-forge/src/agent_registry.rs:1131-1145 | explicit pools belong to agents that legacy pools skip |
| `Forgejo.ScanIsExact` | kuiper-forge/src/forgejo.rs:474-529 | a scan lists exactly the jobs some answering scope has waiting, each once |
| `Forgejo.ScanTakesTheFirst` | kuiper-forge/src/forgejo.rs:480-529 | each entry is the job as the first answering scope lists it |
| `Forgejo.ForgejoClient.ListQueuedJobs` | kuiper-forge/src/forgejo.rs:474-549 | the nested loops give that scan, and fail exactly if no scope answers, also with no scopes |
| `Forgejo.ForgejoClient.RepoName` | kuiper-forge/src/forgejo.rs:276-299 | the cache never changes what a repository is called |
| `Forgejo.SplitFullName` | kuiper-forge/src/forgejo.rs:305-308 | splitting at the first slash undoes joining owner and repository |
| `Forgejo.StatusIsTruthful` | kuiper-forge/src/forgejo.rs:552-560 | asked about a job by repository, the client fails or says how it stands; it never takes a waiting job for gone |
| `Forgejo.ScannedRepositoryFits` | kuiper-forge/src/forgejo.rs:507-520 | the repository a scan records is one its status can be asked by |
| `Polls.PollDropsIff` | kuiper-forge/src/fleet.rs:808-844 | a poll takes a pending job off the queue exactly if its pass does, or its forge was listed without it and, asked, doesn't have it pending |
| `Polls.CheckDropsIff` | kuiper-forge/src/fleet.rs:779-819 | in webhook mode exactly if the check finds it gone and it isn't listed again, or the pass drops it |
| `Polls.NotGoneIsLostOnlyInPass` | kuiper-forge/src/fleet.rs:884-1053 | a job its forge has pending, or can't be asked about, is lost in a scan exactly if the pass runs, reaches it, and finds it at the limit, no longer "queued", or failing for the last time |
| `Polls.WaitingIsDropped` | kuiper-forge/src/fleet.rs:1235-1249 | a job reported as "waiting" is dropped by a scan that brings anything new, once an agent is found for it |
| `Polls.WaitingForgejoJobStaysIff` | kuiper-forge/src/forgejo.rs:474-560 | a waiting Forgejo job survives a poll, whichever scopes fail, if and only if the pass doesn't find it at the limit or fail to register its runner for the last time |
| `Polls.AddAllIsExact` | kuiper-forge/src/fleet.rs:982-1046 | a scan adds exactly the accepted jobs without a runner and changes no pending job |
| `Polls.FleetManager.VerifyPendingJob` | kuiper-forge/src/fleet.rs:848-918 | a job is removed exactly if it has no repository and is over a day old, its forge isn't configured, or its forge answers that it isn't pending |
| `Polls.FleetManager.RecoverQueuedJobs` | kuiper-forge/src/fleet.rs:930-1062 | what forges list is added, and a pass follows exactly if that brought anything new |
| `Polls.FleetManager.ScanForges` | kuiper-forge/src/fleet.rs:808-844 | a scan in either mode, its pass included, ends as the laws above are about |
| `Streaks.ReportedIffMissingAllAlong` | kuiper-forge/src/runner_state.rs:346-384 | a runner is reported exactly if no status over at least the grace had its VM and none reported it before |
| `Streaks.RunnerStateStore.ReconcileAgentVms` | kuiper-forge/src/runner_state.rs:346-384 | the loop reports and remembers what the history laws are about |
| `Streaks.FiresIffOfflineAllAlong` | kuiper-forge/src/main.rs:553-618 | the sweep fires for an agent exactly if every tick over at least 300 seconds found it offline with runners |
| `Streaks.OrphanSweep.OnTick` | kuiper-forge/src/main.rs:561-649 | a tick reports exactly the runners of agents it fires for, and forgets agents that came back |
| `LogUpload.BatchMeaning` | kuiper-agent-lib/src/log_upload.rs:134-149 | a batch is empty only without records, within both caps except for a lone large record, and as long as they allow |
| `LogUpload.PushAllKeepsNewest` | kuiper-agent-lib/src/log_upload.rs:113-131 | after any pushes the newest records remain and the others are counted |
| `LogUpload.FailedUploadIsInvisible` | kuiper-agent-lib/src/log_upload.rs:113-162 | taking a batch, pushing anything, and putting the batch back leaves what the pushes alone leave |
| `LogUpload.NothingGoesMissing` | kuiper-agent-lib/src/log_upload.rs:97-322 | on every run each number is exactly one of waiting, in flight, acknowledged, dropped or discarded, drops are counted exactly, and all is in order |
| `LogUpload.IncreasingMeansInOrder` | kuiper-agent-lib/src/log_upload.rs:113-131 | the order kept by every run is strict on any two records |
| `LogUpload.LogCapture.TakeBatch` | kuiper-agent-lib/src/log_upload.rs:134-149 | the counting loop takes the batch described and leaves the rest |
| `LogUpload.LogCapture.Requeue` | kuiper-agent-lib/src/log_upload.rs:152-162 | a batch goes back in front, newest first, as far as there is room |
| `LogUpload.LogCapture.UploadLoop` | kuiper-agent-lib/src/log_upload.rs:248-299 | the uploader, with lines logged at any time, is a run of the shipping ledger, and what it had acknowledged is on its list |
| `LogPaging.PagingIsExact` | kuiper-forge/src/agent_logs.rs:145-181 | following cursors lists an agent's lines at a level exactly once and newest first for every page size, if and only if their keys differ and none is the largest |
| `LogPaging.FollowListsAll` | kuiper-forge/src/sql.rs:433-446 | with distinct keys, pages of any size put together are all lines selected |
| `LogPaging.TrimKeepsTheNewest` | kuiper-forge/src/agent_logs.rs:188-227 | trimming keeps a prefix of the newest, at most the cap, and exactly the newest min(n, cap) if and only if the lines at the cap have different keys; other agents keep theirs |
| `LogPaging.CursorRoundTrips` | kuiper-forge/src/agent_logs.rs:177-233 | a printed cursor is parsed back to its position |
| `LogPaging.WarningIsBeforeItsBatch` | kuiper-forge/src/agent_logs.rs:97-110 | the warning about dropped lines sorts before every line of its batch |
| `LogPaging.AgentLogStore.InsertBatch` | kuiper-forge/src/agent_logs.rs:90-142 | a batch adds its rows, and a warning if lines were dropped |
| `LogPaging.AgentLogStore.Recent` | kuiper-forge/src/agent_logs.rs:145-181 | a page is at most the limit of lines that match and are older than the cursor, newest first; any left out mean the limit is reached, and none of them is newer than one shown; a cursor that can't be read starts over |
| `LogPaging.PageIsDetermined` | kuiper-forge/src/sql.rs:433-446 | with distinct keys there is only one such page, so what is proved of paging holds however the database sorts |
| `LogPaging.AgentLogStore.PruneWithCap` | kuiper-forge/src/agent_logs.rs:188-227 | every agent is left with its trimmed lines, and the number removed is returned |
| `RunnerCache.HandsOutOnlyVerified` | kuiper-agent-lib/src/runner_cache.rs:476-567 | over all runs with crashes, failures and damaged copies, contents handed out or taken for good have a published checksum that a download was checked against |
| `RunnerCache.NoRetryWithinTheWindow` | kuiper-agent-lib/src/runner_cache.rs:498-506 | after a failure no download starts within the retry window, unless the agent restarts |
| `RunnerCache.PlatformCache.Fetch` | kuiper-agent-lib/src/runner_cache.rs:515-567 | a download succeeds exactly if it is complete and its checksum matches; then only copy and checksum are left, else no other file changed |
| `RunnerCache.PlatformCache.Cached` | kuiper-agent-lib/src/runner_cache.rs:476-511 | what is handed out is intact; a hit or a wait changes nothing; a failure starts the window |
| `Shell.EscapePosixRoundTrips` | kuiper-agent-lib/src/shell.rs:37-39 | a POSIX shell reads the escaped string as one word, the string, all quoted |
| `Shell.EscapedIsRead` | kuiper-agent-lib/src/shell.rs:37-39 | wherever it stands in a command, it adds exactly its characters to the word being read |
| `Shell.EscapePosixPathRoundTrips` | kuiper-agent-lib/src/shell.rs:69-115 | an escaped path is one word with the path's characters, and the shell expands a tilde-prefix exactly if it names a valid user or nobody |
| `Shell.EscapePowershellRoundTripsIff` | kuiper-agent-lib/src/shell.rs:128-130 | PowerShell reads the escaped string back as the string if and only if it has none of the four curly single quotes |
| `Shell.CurlyQuoteEndsTheString` | kuiper-agent-lib/src/shell.rs:128-130 | with one, the string ends early |

## Left out

Assumed throughout:

- Labels and logins are ASCII: the source lowercases by Unicode but compares ignoring ASCII case only.
- Each locked section and each single database call is one step; stores act as maps and their calls succeed. Integers don't overflow.
- Runner names are fresh, disconnect stamps differ, clocks are monotone, and an agent only sends events for its own runners.

Weaker or narrower than the source:

- Overcommit.NeverOvercommitted: the host's configuration and others' use of it stay fixed, and statuses arrive in order on one connection, each a snapshot where the agent reads count, list and limits one after the other. What late starts do is in `LateStarts`.
- LateStarts.HostNeverOverrun: a VM counts against the limits known when its slot is taken; a backend can learn more of its image while creating it.
- Registry.AgentRegistry.SetUnavailable: one call at a time; two racing calls can leave the flag and the set of ids different.
- Registry.AgentRegistry.SelectAgentWhere: picks the least instead of sorting and taking the first, and gets the runner kind as part of the filter.
- Charges.TwoRetriesIffBothFail: speaks of runs without a restart; `Charges.RetriesOfARunner` covers the others.
- Fleet.FleetManager.CreateRunnerOnDemand: which agent is found and whether the forge registers a runner are given; that choosing and reserving only fails for want of an agent is `Registry.AgentRegistry.PlaceRunner`.
- Fleet.FleetManager.ProcessPendingJobs: in any order, where the source goes by age, and with what happens to each job given.
- Fleet.FleetManager.HandleRunnerEvent: what the forge says of the job after a completion is given.
- FixedCapacity.FleetManager.Reconcile: agents' labels and availability stay as they are during a pass.
- Runners.ReconcilingRepairsLeaks: the runners recorded for the agent are listed and compared in one step.
- RunnerCache.HandsOutOnlyVerified: damage from outside hits copies and leftovers, not a checksum file or a download that is being written.

Not modelled:

- Streams, TLS, certificates, tokens, SSH, HTTP and the management socket; a forge is an answer or a failure.
- `remove_stale`, whose check and removal are separate steps.
- Idle teardown's choice of runners by forge kind, age and the set of started ones; only what it does to the records.
- The watchers of recovered runners; that they remove records is part of what recovery may do at any time.
- The metrics, failure records, run history and all texts for people.
- `github_version` with its saved file, `checksums` in release notes, and paging through runner lists: easy members.
- Truncating messages at character boundaries, and parsing log levels.
