# Verified model of Mecharion's control plane and node agent

Mecharion deploys components from Packs onto nodes. `mechd` plans a version change as a *rollout* of batches,
releases one batch after another and judges each by what the nodes report; `mechlet`, the agent on a node, keeps the
machine at the specs it was sent and falls back when a new one does not come up. This project models the parts of
that whose behaviour is not visible from any one function, and proves what they promise over whole runs:

| module | models |
|---|---|
| `Roles`, `Batches`, `Planning` | the `requires` graph of roles: what lint checks and the rollout order; cutting roles into stages and batches; planning one change from what the store holds |
| `Gate`, `Rollouts` | the health gate, and the rollout service with its persisted records: tick, pause, resume, halt, node rollback, takeover |
| `RolloutLaws` | what each request does to the records and offers, in literal terms, and what holds over a run while a rollout is paused or an instance waits |
| `RolloutRuns`, `Delivery`, `Exposure`, `GateRuns`, `Progress` | theorems over all runs of that service: order, delivery, exposure and quorum, gate soundness, durations, and how long a healthy rollout takes |
| `Templates`, `TemplateSoundness`, `TemplateLaws` | the static collection of template references with their profile guards, its soundness against what a template may reference when it runs, and exactly what it collects, read off the syntax |
| `Paths`, `PathResolution`, `PathNames` | path declarations that refer to each other, the fixpoint that resolves them, and which names can be declared side by side |
| `Sessions` | the wake-up protocol between `Notify`, `Register` and `Subscribe`, as interleaved steps |
| `ChallengeLimit`, `RateLimit` | the sliding-window limiter and the login lockout, each against a specification that keeps all history |
| `DigestCache` | the (size, mtime) digest cache against re-hashing |
| `Desired` | the node's desired specs, rollback points and secrets |
| `Versions`, `PackIndex` | versions, constraints, and the sorted index that resolves them |
| `Options`, `Sorting` | the optional value; stable insertion sort, standing for the library sorts, and the order of names |

Code that changes state is a class or a method with loops, proved equal to a function on values; the theorems are about
that function. `dafny verify dfyconfig.toml` checks everything. Times are integers in nanoseconds. One step of the
rollout service, of a limiter or of the desired store is atomic; `Sessions` and `DigestCache` model the finer steps
where the source takes no lock.

## Where the code does less than its comments or documentation say

Each of these is a lemma; the code is modelled as it is.

- **Crash after a counter reset** (`GateRuns.RestartNoticedExactly`, `GateRuns.CrashAfterResetGoesUnseen`): the restart
  baseline is read when the stability window opens and kept until the window closes, so the promise that a later crash
  is noticed after `reset-failed` holds only once the counter climbs above the reading taken when the window opened.
- **Success releases the skipped** (`Delivery.SuccessReleasesTheRest`): instances skipped because their node was
  cordoned stay behind only while the rollout gates delivery; on success they are offered the new version.
- **A takeover moves those still waiting** (`Delivery.TakeoverSkipsTheQueue`): the new rollout starts from the version
  the component was just moving to, so instances no batch had released yet go there at once, ungated. A quorum role keeps
  its majority through a change exactly when less than half of it was still held back
  (`Exposure.ChangeKeepsMajorityExactly`), and likewise through success (`Exposure.SuccessKeepsMajorityExactly`).
- **A failed deployment opens the gate** (`Delivery.FailedDeploymentOpensTheGate`): the rollout it opened is aborted, and
  an aborted rollout gates nothing; if the version was stored before the failure, all instances are offered it.
- **A new revision of the same version is not staged** (`Delivery.HeldBackFromTheStart`, `Delivery.NewRevisionGoesToAll`):
  an upgrade may change the revision alone, and batches are told apart by version; everyone is offered the new revision
  at once while its batches are still walked.
- **A pause does not stop the batch clock** (`GateRuns.PauseDoesNotStopTheClock`).
- **Disjoint profile guards** (`TemplateSoundness.AndExactly`): the conjunction of two guards loses its restriction
  exactly when both list profiles and have none in common. It still admits too much, never too little.
- **Profile tests with mixed operands** (`TemplateSoundness.TestSoundExactly`): a recognised test is sound exactly when it
  compares the profile with literals only, one literal with the profile only, or uses `ne`; `eq "a" .Profile "b"` is not.
- **Fields of parenthesised pipelines** (`TemplateSoundness.MissedExactly`) are not looked into: a parameter that a
  pipeline references is missed exactly when all its references are inside such pipelines.
- **Path names that differ only in the first letter's case** (`PathNames.NoClashExactly`, `PathNames.ClashBreaks`,
  `PathNames.DataDeclaredTwice`) share a key of the context, and so do a path called Current or Generation and the
  derived one. The names alone decide: every path is always what its own expressions say exactly when there are no such
  names; otherwise some declarations resolve, and one path differs from what its expression says.
- **Two streams on one session** (`Sessions.SecondStreamIsForgotten`): one of them takes the only signal,
  and the other waits on an old snapshot; so it is in every state in which two wait on a node's current session.
- **Retry hints** (`ChallengeLimit.WindowCountsDown`): at the very instant a refusal names, the request is refused once
  more; the window is closed at both ends.
- **Coarse mtimes** (`DigestCache.RightExactly`): one second of `RacyWindow` covers granularities up to one second (and a
  nanosecond), not the two seconds of FAT, and leaves no room for a delay between hashing and recording.
- **`~` and `^`** (`Versions.TildeAndCaretExpand`) are not the ranges the specification gives for them on pre-releases of the
  upper bound: `<16.5` admits `16.5-rc1`, `~16.4` does not.
- **A reconcile overlapping a push** (`Desired.LateSuccessLosesItsSecret`, `Desired.LateSuccessLeavesAnOrphan`): a late
  success can record a rollback point whose secret was collected, or whose instance is gone.
- **Specs without secrets at hand** (`Desired.EncodeSpec`): when no secret value is supplied at all, a spec that refers to
  some is sent without them.

## Model

| member | source | states |
|---|---|---|
| Roles.FindRoleCycle | internal/pack/lint_rules.go:274-323 | Returns a genuine closed walk of `requires` edges, or nothing exactly when the declared roles form no cycle; terminates on cyclic graphs. |
| Roles.CycleFinder.Dfs | internal/pack/lint_rules.go:284-311 | The three-colour search from one role: a witness walk, or everything reachable is finished in an order that puts required roles first. |
| Roles.RoleOrder | internal/mechd/batch.go:136-173 | Every enabled role exactly once, whatever the graph; required roles before their dependents if and only if the enabled roles form no cycle; among the rest by name. |
| Roles.ByNameMeans | internal/mechd/batch.go:145-172 | In that order a role stands before another only if it is reached from a role whose name is not after the other one; where nothing is required the names rise. |
| Roles.RoleSorter.Visit | internal/mechd/batch.go:151-166 | One visit appends the role behind everything it requires, visits nothing twice, and leaves the roles on the current path open. |
| Roles.OrderedImpliesAcyclic | internal/mechd/batch.go:129-173 | An order with all required roles first exists only for acyclic graphs. |
| Roles.CheckRoles | internal/pack/lint_rules.go:163-241 | The checks of names and requirements: every finding names what is wrong, and there is none exactly when there are roles, no name is repeated, only known roles are required, and the requirements form no cycle. |
| Roles.CleanPackIsAcyclic | internal/pack/parse.go:281-306 | The enabled roles of a Pack without such findings form no cycle, whatever a profile switches off. |
| Roles.DeclaredExactly | internal/pack/lint_rules.go:287-291 | The cycle search follows the first declaration of a name. |
| Roles.EnabledExactly | internal/mechd/batch.go:137-145 | The rollout order takes the enabled roles, and of those of one name the last. |
| Roles.EffectiveMeans | internal/pack/parse.go:281-306 | A profile switches roles off by name and changes nothing else of them. |
| Batches.PlanBatches | internal/mechd/batch.go:50-127 | The batches are a plan (stage by stage, batch by batch), batches and skipped together are exactly the instances of the ordered roles as a multiset, and all skipped ones are cordoned. |
| Batches.CutStage | internal/mechd/batch.go:94-124 | One stage holds its participants in order; every batch is within its size, all but the last are full, the first is the canary. |
| Batches.SplitTargets | internal/mechd/batch.go:74-81 | Cordoned targets are set aside, the others kept, both in order. |
| Batches.PlanGathers | internal/mechd/batch.go:64-126 | Reading the batches of a plan one after another gives the participants role by role. |
| Batches.Conserved | internal/mechd/batch.go:64-126 | Participants and cordoned instances of all stages together are all instances, with multiplicity. |
| Batches.PlannedBatches | internal/mechd/batch.go:118-122 | The i-th batch is numbered i + 1, untouched, non-empty, of one role, and holds only uncordoned instances of that role. |
| Batches.SizesRespectTheKnobs | internal/mechd/batch.go:50-124 | In terms of the settings and their defaults: no batch above maxUnavailable, none half of a quorum role unless it is one instance, and a role's first batch not above the canary. |
| Batches.SizesUseTheKnobs | internal/mechd/batch.go:94-124 | A batch that is not its role's last is at one of these bounds. |
| Batches.ParticipantsRise | internal/mechd/batch.go:65-81 | The participants of a role are sorted by the comparison of the planner. |
| Batches.OrdinalsRise | internal/mechd/batch.go:65-81 | In a plan, of two instances of one role the one with the smaller ordinal moves first, and with equal ordinals the one whose node name is first byte by byte. |
| Batches.StagesRise | internal/mechd/batch.go:118-122 | Later batches belong to the same or a later stage. |
| Batches.PlanFollowsOrder | internal/mechd/batch.go:64-125 | If one role stands before another in the order, all its batches come before the other's. |
| Batches.QuorumKeepsMajority | internal/mechd/batch.go:86-103 | A batch of a quorum role with at least three instances, cordoned ones counted, leaves more than half of them outside. |
| Planning.GatherInput | internal/mechd/rollout.go:93-117 | The planner gets the instances of each role in store order, the quorum flags, the cordoned nodes, and an order of the enabled roles that puts required ones first if and only if they form no cycle. |
| Planning.InputMeans | internal/mechd/rollout.go:93-117 | Said outright: the targets of a role are its instances, the cordoned nodes those of cordoned instances, quorum as the role declares it, and the settings as they are. |
| Planning.PlanAndSave | internal/mechd/rollout.go:83-145 | The saved records are a plan of that input, led by the list of skipped targets if there are any. |
| Planning.PlannedOrdinalsRise | internal/mechd/rollout.go:93-125 | The same for what is planned from the store, in whatever order it lists the instances. |
| Planning.RecordsAreNumbered | internal/mechd/rollout.go:120-138 | The saved batches are numbered from 1 and pending; the list of skipped targets, if any, is number 0, of no role, and skipped. |
| Gate.CheckGate | internal/mechd/gate.go:60-120 | The verdict, blockers and baseline computed by the loop. |
| Gate.GateStatesRead | internal/mechd/gate.go:138-155 | The gate knows exactly the reported instances, and takes one for converged if and only if it runs the wanted digest, is not queued, and neither its health check nor its reconcile failed. |
| Gate.PassesExactly | internal/mechd/gate.go:85-105 | A batch passes exactly when a window is open, has lasted 30 seconds, and every target is converged and not restarted beyond its baseline. |
| Gate.BlockersNameTheUnsteady | internal/mechd/gate.go:65-91 | There are blockers exactly when some target is not steady, and each such target is named with its reason. |
| Gate.ReasonsMean | internal/mechd/gate.go:138-155 | Which reason an instance gets: not reported, queued, another digest, unhealthy, failed, in this order. |
| Gate.BlockersExactly | internal/mechd/gate.go:65-103 | The blockers are exactly the targets that did not report, did not converge or restarted, each with its reason and number of restarts; if there are none, the rest of the 30 seconds of an open window. |
| Gate.CountersRead | internal/mechd/gate.go:75-82 | The baseline holds, for every steady target and no one else, the counter just read. |
| Rollouts.RolloutService.ReadReleaseState | internal/mechd/release.go:40-115 | The release state of the latest rollout: gated or not, and the instances of every batch that has been released. |
| Rollouts.RolloutService.AdvanceBatches | internal/mechd/rollout.go:235-312 | The walk over the persisted batches, saving each change as it is made, is the step function `Advance`. |
| Rollouts.RolloutService.AdvanceRollout | internal/mechd/rollout.go:155-222 | One tick on any observations is the step `Tick` of the protocol. |
| Rollouts.RolloutService.RewindFailedBatch | internal/mechd/rollout.go:568-598 | Resuming puts exactly the failed batch back to released, with a fresh clock and no window. |
| Rollouts.RolloutService.SetRolloutPaused | internal/mechd/rollout.go:502-560 | Pause and resume are the step `SetPaused`; the request is refused exactly in the states the code refuses. |
| Rollouts.RolloutService.StartRollout | internal/mechd/rollout.go:27-150 | The open rollout is aborted, and the new one gets the records planned from its input, or none when planning was impossible. |
| Rollouts.RolloutService.ChangeTo | internal/mechd/service.go:1165-1225 | A version change with each way deploying may end is the step `Change`. |
| Rollouts.ActiveIsLatest | internal/mechd/rollout.go:27-66 | When only the latest rollout can be open, the open one is the latest, so both queries of a tick see the same rollout. |
| RolloutLaws.OfferedMeans | internal/mechd/release.go:60-130 | An instance is offered the starting version exactly when the latest rollout is running, paused, halted or failed, has batches and a known starting version, and none of its released, done or failed batches has the instance. |
| RolloutLaws.NodeRollbackStopsTheRollout | internal/mechd/rollout.go:176-183 | A tick that sees a node rolled back ends the running rollout as failed at that time, leaves its batches, and changes no offer. |
| RolloutLaws.WithoutBatches | internal/mechd/rollout.go:186-222 | Without batches: success when all has converged on the target version, failure 10 minutes after the start, and nobody held back. |
| RolloutLaws.WithBatches | internal/mechd/rollout.go:254-311 | With a batch out: done after a steady window of 30 seconds and the next one released, or success after the last; failed and halted with its blockers 10 minutes after its release; else still out. No other batch changes. |
| RolloutLaws.WithoutAnyOut | internal/mechd/rollout.go:286-311 | A pending front batch is released and nothing else happens; with none left the rollout succeeds. |
| RolloutLaws.AcceptedExactly | internal/mechd/rollout.go:514-540 | A pause is accepted exactly by a running rollout, a resume exactly by a paused or halted one. |
| RolloutLaws.PausePauses | internal/mechd/rollout.go:514-555 | An accepted pause leaves the rollout paused and all else as it is; a refused request changes nothing. |
| RolloutLaws.ResumeResumes | internal/mechd/rollout.go:542-598 | An accepted resume leaves it running, the failed batch of a halted one released again with a fresh clock and no window. |
| RolloutLaws.PausedStaysPut | internal/mechd/rollout.go:155-172 | In every run, from an accepted pause until a resume or a change, no record, phase or offer changes, whatever the ticks show. |
| RolloutLaws.ChangeMeans | internal/mechd/rollout.go:27-41 | A change ends the open rollout as aborted and superseded at that time, and leaves the others. |
| RolloutLaws.ChangeAppends | internal/mechd/service.go:1196-1225 | It appends a running rollout from the old version with the saved records, aborted if the deployment failed; the version moves unless storing it failed. |
| RolloutLaws.WaitingEnds | internal/mechd/rollout.go:254-311 | Over any stretch of a run without a change, an instance that was waiting and no longer is had its own batch released by a tick, or the rollout succeeded with all batches done or set aside. |
| RolloutRuns.AdvanceIsOneMove | internal/mechd/rollout.go:254-311 | The whole walk of a tick amounts to one move at the first unsettled batch: judge it, and release the next one if it passed. |
| RolloutRuns.StepKeeps | internal/mechd/rollout.go:155-312 | Every step of every kind keeps the protocol invariant. |
| RolloutRuns.Reachable | internal/mechd/rollout.go:155-312 | The invariant holds in every state of every run. |
| RolloutRuns.OneBatchInFlight | internal/mechd/rollout.go:254-311 | In every reachable state the batches are done, then at most one released or failed, then pending. |
| RolloutRuns.RequiredRolesFirst | internal/mechd/rollout.go:235-312 | In every reachable state of a rollout whose enabled roles form no cycle, once a batch of a role is released, failed or done, every batch of every enabled role it requires is done. |
| RolloutRuns.LintedRolesFirst | internal/pack/lint_rules.go:237-240 | The same for every Pack without lint findings on roles, under every profile. |
| RolloutRuns.StepKeepsCuts | internal/mechd/rollout.go:43-50 | No step ever re-cuts a rollout: numbers, roles and targets of its batches stay what planning made them. |
| RolloutRuns.Origin | internal/mechd/rollout.go:27-66 | Every rollout in a reachable state goes back to one change event and still has the batches that event saved. |
| Delivery.OfferedExactly | internal/mechd/release.go:95-130 | An instance is offered the starting version exactly when the latest rollout gates delivery with batches, started from another version, and has not released it. |
| Delivery.StepNeverTakesBack | internal/mechd/release.go:95-130 | No step short of a new change takes an offered version back. |
| Delivery.NeverTakenBack | internal/mechd/release.go:95-130 | Over any stretch of a run without a new change, an instance offered the target version stays on it. |
| Delivery.FrozenWhileStopped | internal/mechd/release.go:60-130 | While the rollout is paused, halted or failed, no step short of a new change alters any offer. |
| Delivery.OneBatchAtATime | internal/mechd/rollout.go:286-304 | A tick offers the target version to the instances of at most one more batch. |
| Delivery.CordonedStayBehind | internal/mechd/batch.go:74-81 | In every reachable state an instance that planning set aside for its cordoned node is offered the old version as long as its rollout gates delivery. |
| Delivery.SuccessReleasesTheRest | internal/mechd/release.go:60-75 | On success exactly the instances the rollout was still holding back change over to the target version. |
| Delivery.TakeoverSkipsTheQueue | internal/mechd/rollout.go:22-41 | A takeover offers every instance the intermediate version, or the new one where nothing gates it; in terms of the records, exactly those held back (or on another version) are moved. |
| Delivery.FailedDeploymentOpensTheGate | internal/mechd/rollout.go:64-80 | After a failed deployment every instance is offered the component's stored version; exactly those held back, or on another version, are moved. |
| Delivery.HeldBackFromTheStart | internal/mechd/release.go:118-130 | A deployed change holds an instance back if and only if it has batches and starts from a known version that is not the one it goes to. |
| Delivery.NewRevisionGoesToAll | internal/mechd/service.go:1180-1184 | After a change to the version the component already has, no state before the next change holds anyone back. |
| Exposure.ExposedAreInOneBatch | internal/mechd/release.go:40-130 | In every reachable state in which a rollout gates delivery, every instance that is offered the new version and is in no batch that passed its gate lies in the batch at the front, which is released or failed. |
| Exposure.QuorumNeverAtRisk | internal/mechd/batch.go:86-118 | In every such state more than half of a quorum role of three or more instances, cordoned ones counted, is not so exposed. |
| Exposure.ChangeKeepsMajorityExactly | internal/mechd/rollout.go:22-80 | Across a change, with each way deploying may end, more than half of a set of instances keep their offer if and only if less than half of it was held back (or on another version). |
| Exposure.SuccessKeepsMajorityExactly | internal/mechd/release.go:60-75 | Across the tick that ends a rollout, more than half keep their offer if and only if less than half was held back. |
| GateRuns.PassNeedsSteadyWindow | internal/mechd/gate.go:48-120 | Gate soundness over runs: a pass has an evaluation at least 30 seconds earlier since which every evaluation saw all targets converged and not restarted beyond their counters then. |
| GateRuns.PassSawHealthyTargets | internal/mechd/gate.go:48-82 | In terms of the reports: every evaluation of that stretch was shown every target healthy and on the wanted digest. |
| GateRuns.PassSeesNoRestart | internal/mechd/gate.go:106-118 | With counters that do not run backwards, each counter at the pass, and at every evaluation since, is what it was at the evaluation that opened the window, at least 30 seconds earlier, however sparse the ticks. |
| GateRuns.PassTakesWindow | internal/mechd/rollout.go:261-304 | A batch passes no sooner than 30 seconds after its last release, and the next one is released at that very tick. |
| GateRuns.SuccessTakesTime | internal/mechd/rollout.go:195-205 | A succeeded rollout of m gated batches took at least m times 30 seconds, halts and resumes included, and all its batches are done but the list of skipped targets. |
| GateRuns.PassEvent | internal/mechd/rollout.go:261-304 | In every run a batch that is done was taken through its gate by some event, when its rollout was the latest. |
| GateRuns.PassesInOrder | internal/mechd/rollout.go:286-304 | Two consecutive batches pass in order: the first pass releases the second batch, and the second pass comes at least 30 seconds later. |
| GateRuns.PauseDoesNotStopTheClock | internal/mechd/gate.go:157-167 | After pause and resume a tick halts exactly when the gate is not passed and the original release is longer ago than the timeout. |
| GateRuns.ResumeAtTheBreakpoint | internal/mechd/rollout.go:562-598 | Resuming a halted rollout changes its failed batch and nothing else. |
| GateRuns.RestartNoticedExactly | internal/mechd/gate.go:106-118 | A restart inside the window closes it exactly when the counter climbs above the reading that opened it. |
| GateRuns.CrashAfterResetGoesUnseen | internal/mechd/rollout.go:318-325 | For every component with one released batch of one target, four ticks of the service during which the counter was reset and the instance crashed again, and the batch passes. |
| Progress.CalmTicksFinish | internal/mechd/rollout.go:235-312 | Ticks may come as densely as they like. If each follows within `gap`, and from `settle` after its release on the targets of the batch that is out are shown converged with counters that do not climb, then b remaining batches succeed within b times (30 s + 2 gap) of the release, plus settle + gap for each when they need time to settle. Instances still waiting or set aside may be shown in any state. |
| Progress.HealthyChangeSucceeds | internal/mechd/rollout.go:155-312 | So a change of k batches succeeds within gap and k such allowances, provided an allowance short of a gap is within the timeout of 600 s; its rollout runs until then. |
| Progress.HealthyResumeSucceeds | internal/mechd/rollout.go:562-598 | And a halted rollout that is resumed, within an allowance for its failed batch and each behind it. |
| Progress.EveryChangeCanSucceed | internal/mechd/service.go:538-548 | Every run that ends in a deployed change with batches can go on so to the success of its rollout, with status queries that mark exactly the instances offered another version as waiting. |
| Progress.HaltsExactly | internal/mechd/rollout.go:261-285 | A tick halts a running rollout if and only if it evaluates a batch that was released more than 600 seconds ago and does not pass. |
| Progress.HaltNeedsTimeout | internal/mechd/rollout.go:261-285 | In every run, a halted rollout has a batch that was out, unpassed, from its last release for more than 600 seconds until the evaluation that halted it. |
| Templates.Refs.VisitNode | internal/pack/template.go:277-316 | Walking a node into the shared collection is the function `WalkNode`. |
| Templates.Refs.VisitPipe | internal/pack/template.go:348-381 | Walking a pipeline, with the role and profile names it mentions, is the function `WalkPipe`. |
| Templates.Refs.RecordFieldChain | internal/pack/template.go:400-419 | Recording one field chain. |
| Templates.DeepWalk.Visit | internal/pack/template.go:242-260 | One visit adds the references of a template and of everything it includes that was not seen yet; it terminates on cyclic includes. |
| Templates.CollectRefsDeep | internal/pack/template.go:242-260 | The result holds the references of every template reachable through includes, and no parameter from anywhere else. |
| TemplateSoundness.TestSoundExactly | internal/pack/template.go:318-346 | A recognised profile test guards both branches soundly if and only if it has one of the clean forms. |
| TemplateSoundness.AndAdmits | internal/pack/template.go:125-142 | The conjunction of guards admits every profile both admit. |
| TemplateSoundness.AndExactly | internal/pack/template.go:125-142 | It admits nothing else, if and only if the two lists of allowed profiles are not both given and disjoint. |
| TemplateSoundness.MissedExactly | internal/pack/template.go:348-398 | A parameter that a pipeline references is missed if and only if it is referenced only inside parenthesised pipelines of which a field is taken. |
| TemplateSoundness.NodeCollectsExactly | internal/pack/template.go:277-316 | The walk of a node collects a parameter for a profile if and only if the node shows it where the recognised guards together admit the profile. |
| TemplateSoundness.NodeSound | internal/pack/template.go:277-316 | Every parameter that a run of the node references in plain sight, along branches whose recognised tests let the profile through, is shown under guards that admit the profile. |
| TemplateSoundness.CallsCollected | internal/pack/template.go:312-315 | The templates collected are exactly those a run of the node may include. |
| TemplateSoundness.DeepCollectsExactly | internal/pack/template.go:242-260 | The deep collection has a parameter for a profile if and only if some template reached through includes shows it so. |
| TemplateSoundness.CollectionSound | internal/pack/template.go:242-316 | For every template set: every parameter that any finite run references so, through includes to any depth, is in the deep collection under a guard that admits the profile. |
| TemplateSoundness.TidyTemplatesReferOpenly | internal/pack/template.go:277-366 | Where, in every template reached, recognised tests are clean and nothing is hidden that is not also shown, every reference a run may make is of that kind. |
| TemplateSoundness.NothingMissed | internal/pack/template.go:242-316 | So there the deep collection has every parameter whose field chain any finite run may read, under a guard that admits the profile. |
| TemplateLaws.FoldMeans | internal/pack/template.go:400-419 | Names are compared letter by letter, a capital and its small letter being the same. |
| TemplateLaws.TestsMean | internal/pack/template.go:318-346 | Exactly which conditions are recognised as profile tests, and the profiles they admit or exclude. |
| TemplateLaws.MentionsExactly | internal/pack/template.go:242-419 | For parameters, paths, dependencies, facts, role names, profile names and the use of the profile alike: it is in the deep collection if and only if some template that is included has, in plain sight, the field chain or string that means it. |
| Paths.EvalPersists | internal/render/paths.go:196-206 | An expression that evaluates or fails keeps doing so in every larger context; only "unresolved" can change. |
| Paths.EvalMeans | internal/render/paths.go:196-206 | An evaluation reads one key after another: it is answered with the text it ends in, unresolved at a key that is not there, broken where it fails. |
| Paths.ResolveMeans | internal/render/paths.go:118-157 | A path with bound volumes has their paths in order, whatever its defaults, and fails if one is missing; any other has the valid text of each default, the first that gives none deciding between waiting and failing. |
| Paths.DerivedValues | internal/render/paths.go:60-97 | So each name gets the paths of its volumes, or the valid texts of its defaults in the context of the names before it. |
| Paths.PublishedExactly | internal/render/paths.go:163-172 | Every path, and every derived one, is there at the end under both spellings with its value if and only if nothing different is published under one key. |
| Paths.ContextMeans | internal/render/paths.go:163-172 | Where nothing different is published under one key, the final context has each path under both spellings, one string if it is single and the list otherwise, `current` below home, and the placeholder of the generation. |
| Paths.ApartIsConsistent | internal/render/paths.go:163-172 | Names that stay apart once capitalised never publish anything different under one key, whatever their values. |
| Paths.FixedPoint | internal/render/paths.go:60-97 | Where nothing different is published under one key, every value satisfies its own defining expressions in the final context. |
| Paths.Confluent | internal/render/paths.go:40-97 | Whatever names were tried first, each value is the value any complete derivation gives. |
| Paths.NeverStuck | internal/render/paths.go:94-96 | If the declarations can be resolved in some order, no partial result is without a next name that evaluates. |
| Paths.NeverFails | internal/render/paths.go:62-69 | And no name fails outright on the way. |
| Paths.DerivableExactly | internal/render/paths.go:40-44 | When each declaration reads fixed keys in every context resolution can produce, it is possible exactly when the references are closed and well-founded. |
| Paths.OrdinaryReferencesAreFixed | internal/render/paths.go:140-157 | Paths written out, and paths written below another path, meet that under the test for absolute paths. |
| PathResolution.ResolveOnePath | internal/render/paths.go:118-157 | Bound volumes before defaults, the first value that is not there, not ready or not valid deciding. |
| PathResolution.PublishPath | internal/render/paths.go:163-172 | One string for a single path, the list otherwise, under both spellings. |
| PathResolution.PathRun.Round | internal/render/paths.go:58-97 | One round keeps a derivation; with progress fewer names are pending, without it all of them wait for others. |
| PathResolution.PathRun.ResolvePaths | internal/render/paths.go:45-115 | Terminates; any success comes from evaluating all names in some order. Where each declaration reads fixed keys, it succeeds if and only if the references are closed and well-founded, home is declared and every linkInto evaluates. In general, it succeeds with values of which nothing different is published under one key if and only if some order evaluates everything so; that result satisfies its own definitions and is the only answer. |
| PathResolution.SolutionMeans | internal/render/paths.go:45-115 | A success gives each name the paths of its volumes, or the valid texts of its defaults in the context it leaves. |
| PathResolution.ResolvableExactly | internal/render/paths.go:40-44 | With fixed references, names that stay apart and no linkInto, the declarations have such an answer if and only if home is declared and the references are closed and well-founded. |
| PathResolution.NamesApart | internal/render/paths.go:163-172 | For names that stay apart once capitalised, every success is such a result. |
| PathNames.NoClashExactly | internal/render/paths.go:163-196 | For any set of names with home: every path is what its own expressions say in the final context, whatever is declared and in whatever order it evaluates, if and only if no two names share a spelling once capitalised and none is a derived path. |
| PathNames.ClashBreaks | internal/render/paths.go:163-196 | Otherwise there are declarations under these names with closed and well-founded references, so that resolving succeeds, and in every order some path is not what its own expressions say. |
| PathNames.SpellingsGetMixed | internal/render/paths.go:163-172 | With b put below a, another spelling of it: b is made from a, and at the end its own expression means b. |
| PathNames.DataDeclaredTwice | internal/render/paths.go:17-23 | For one, Data declared beside the predefined data: data is /Data/x, and its own expression says /Data/x/x. |
| Sessions.Server.NewSession | internal/protocol/server.go:348-361 | A new session replaces the node's current one and starts with an empty wake slot. |
| Sessions.Server.NotifyLocked | internal/protocol/server.go:461-465 | Under the lock Notify takes the current session and counts the revision. |
| Sessions.Server.NotifySend | internal/protocol/server.go:467-473 | After the lock it fills that session's slot, current or not. |
| Sessions.Server.DropSession | internal/protocol/server.go:511-517 | Only the current session is dropped. |
| Sessions.StepKeepsSound | internal/protocol/server.go:364-474 | Every step of every goroutine keeps the wake-up invariant while no session has two live streams. |
| Sessions.NothingLost | internal/protocol/server.go:364-474 | Under every interleaving with one stream per session: when the current session's stream is idle and its slot empty, the last pushed snapshot has every change whose Notify has returned. |
| Sessions.SignalLeadsToPush | internal/protocol/server.go:399-430 | Left alone, a stream with a waiting signal pushes everything there is by then and empties the slot. |
| Sessions.SignalIsHonoured | internal/protocol/server.go:399-455 | From the moment a stream takes a signal, under every interleaving, whatever it loads or has pushed from then on contains every change made before that moment. |
| Sessions.SignalStays | internal/protocol/server.go:399-430 | A waiting signal is taken by nothing but a stream of its session, which then goes on to check and push. |
| Sessions.SnapshotsArePast | internal/protocol/server.go:433-455 | In every run no snapshot contains a change that was not made yet. |
| Sessions.SecondStreamIsForgotten | internal/protocol/server.go:256-262 | In every state of every run in which two streams wait on a node's current session, the next announced change leaves the other one quiet on an old snapshot once one takes the signal. |
| Sessions.SubscribeMeans | internal/protocol/server.go:364-375 | A subscription becomes a stream on the node's current session exactly when there is one and the request names it or none. |
| Sessions.FirstPushIsFull | internal/protocol/server.go:377-385 | Under every interleaving the first thing it pushes has every change made before it subscribed. |
| Sessions.SubscriptionPushes | internal/protocol/server.go:377-385 | Left alone a subscription pushes what is there at once. |
| Sessions.ReplacedStreamsEnd | internal/protocol/server.go:401-409 | A stream that took a signal goes on if its session is still current, and ends if it was replaced. |
| Sessions.LeavingMeans | internal/protocol/server.go:387-400 | A failed push ends the stream alone; leaving drops the session too, unless it was replaced. |
| Sessions.RegisterMeans | internal/protocol/server.go:348-361 | Registering makes a session later than any before, the node's current one, with an empty slot. |
| ChallengeLimit.ChallengeLimiter.Allow | internal/authn/challengelimit.go:56-76 | Pruned and swept lists decide, retry value included, exactly as a record of every grant ever made. |
| ChallengeLimit.ChallengeLimiter.Sweep | internal/authn/challengelimit.go:84-94 | At most once a minute it forgets exactly the sources without a grant in the last minute; that loses nothing that could still count. |
| ChallengeLimit.Prune | internal/authn/challengelimit.go:97-107 | Drops stale times from the front only, and stops at the first that is not stale. |
| ChallengeLimit.PrunedIsTheMinute | internal/authn/challengelimit.go:97-107 | What is left after pruning is the last closed minute of the full record. |
| ChallengeLimit.EveryMinuteIsBounded | internal/authn/challengelimit.go:16-24 | In every run with a clock that never goes back, every closed minute holds at most 200 grants, and at most 10 to one source. |
| ChallengeLimit.GrantedExactly | internal/authn/challengelimit.go:56-76 | A request is granted if and only if the last closed minute holds fewer than 200 grants, and fewer than 10 to its source. |
| ChallengeLimit.MinutesHoldNoMore | internal/authn/challengelimit.go:16-24 | The bounds counted in grants: at most 200 and 10 in every 60 seconds of every run. |
| ChallengeLimit.RetryMeans | internal/authn/challengelimit.go:109-119 | A refusal names the time until the first grant of the refusing minute is 60 seconds old. |
| ChallengeLimit.WindowCountsDown | internal/authn/challengelimit.go:109-119 | A refusal counts down to 0 and is still a refusal at 0; one instant later the refusing window has room. |
| RateLimit.LockoutIsCappedDoubling | internal/authn/ratelimit.go:94-100 | For every number of failures the wrapping int64 shift with its guard is min(30 s * 2^k, 15 min). |
| RateLimit.LockoutRises | internal/authn/ratelimit.go:94-100 | The lockout never gets shorter with more failures. |
| RateLimit.Limiter.Check | internal/authn/ratelimit.go:64-78 | Sweeps, then answers with the time left of a running lockout. |
| RateLimit.Limiter.Fail | internal/authn/ratelimit.go:81-102 | Counts on, or starts over after half an hour; only that source's bucket changes. |
| RateLimit.Limiter.Succeed | internal/authn/ratelimit.go:105-109 | Forgets the source. |
| RateLimit.Limiter.Sweep | internal/authn/ratelimit.go:111-117 | Forgets exactly the sources that have been quiet for half an hour and whose lockout is over. |
| RateLimit.SweepMeans | internal/authn/ratelimit.go:111-117 | A source is forgotten exactly when it has been quiet for more than half an hour and its lockout, if any, is over. |
| RateLimit.AnswersAsFullHistory | internal/authn/ratelimit.go:64-117 | In every run the limiter answers as one that keeps every event: locked until min(30 s * 2^(f - 5), 15 min) after the last of f >= 5 failures in a row. |
| RateLimit.StreakMeans | internal/authn/ratelimit.go:81-94 | The failures counted are those in a row: each within half an hour of the one before, none forgiven by a success. |
| RateLimit.LockoutMeans | internal/authn/ratelimit.go:81-102 | Locked if and only if there are five of them; 30 s after the fifth, doubled for each more, at most 15 minutes. |
| RateLimit.LockoutHolds | internal/authn/ratelimit.go:81-117 | Whatever happens meanwhile except a success of that source, a lockout's end never moves to an earlier time. |
| RateLimit.RefusedUntilTheEnd | internal/authn/ratelimit.go:64-117 | Until a lockout ends every check of the source is refused, for at least the rest of it. |
| DigestCache.MemoryDigestCache.Get | internal/resource/digestcache.go:108-118 | Answers exactly on a usable entry of the same size and mtime, and counts hits and misses. |
| DigestCache.RoundDigestCache.Get | internal/reconcile/digests.go:40-50 | The persisted twin gives the same answer, and marks the path as touched. |
| DigestCache.RoundDigestCache.Commit | internal/reconcile/digests.go:64-75 | Keeps the touched entries and no others; a round that touched nothing changes nothing. |
| DigestCache.HashFileCached | internal/resource/digestcache.go:45-71 | Reads, and records the digest under the stat taken afterwards: the Read and Record steps of the model. |
| DigestCache.EntrySurvives | internal/resource/digestcache.go:130-155 | A later write cannot reproduce a trusted mtime when the granularity is within the window. |
| DigestCache.HitMeans | internal/resource/digestcache.go:108-118 | A hit takes the recorded size and mtime, recorded more than a second after that mtime. |
| DigestCache.OtherFilesAreHashed | internal/resource/digestcache.go:45-71 | A file of another size is hashed even if its mtime was put back, and so is one of another mtime. |
| DigestCache.RightExactly | internal/resource/digestcache.go:130-155 | Every answer in every run is the hash of the current content, if and only if delay + (granularity - 1) <= 1 s. |
| DigestCache.RoundsForget | internal/reconcile/digests.go:60-75 | After a round touched paths answer as before and the others are hashed again. |
| Desired.DesiredStore.Save | internal/agent/desired.go:45-69 | Writes the spec and merges its secrets into the vault. |
| Desired.SaveMeans | internal/agent/desired.go:45-69 | After a save: the spec as given, other specs and all rollback points as before, supplied secrets with their new values, others with their old ones. |
| Desired.SavedReadsBack | internal/agent/desired.go:103-134 | A spec saved with all its secrets reads back with exactly those. |
| Desired.DesiredStore.SecretsFor | internal/agent/desired.go:103-134 | All secrets of a spec, or an error when one is missing. |
| Desired.DesiredStore.Load | internal/agent/desired.go:76-100 | All specs with their secrets, or nothing when one cannot be completed. |
| Desired.DesiredStore.Keep | internal/agent/desired.go:140-200 | Drops unlisted specs with their rollback points, then cuts the vault down to exactly the ids that remaining specs and their rollback points refer to; a spec that cannot be loaded leaves the vault alone. |
| Desired.KeepMeans | internal/agent/desired.go:140-163 | A listed spec and its rollback point stay as they are, both go when it is not listed, and a rollback point without a spec stays. |
| Desired.KeepLeavesSecrets | internal/agent/desired.go:164-200 | Of the vault exactly what specs and their rollback points need is left, value by value; all of it if a spec lacks a secret. |
| Desired.DesiredStore.MarkApplied | internal/agent/desired.go:284-310 | Records a spec unless the recorded one has the same digest. |
| Desired.MarkMeans | internal/agent/desired.go:284-310 | A success is recorded unless the recorded digest is the same; no other point moves. |
| Desired.DesiredStore.Applied | internal/agent/desired.go:315-329 | No rollback point, a missing secret, or the spec with its secrets. |
| Desired.RollbackMeans | internal/agent/desired.go:315-329 | No point, an error exactly when one of its secrets is not there, or the point with all of them. |
| Desired.ReconcileOne | internal/agent/agent.go:341-485 | Only a success becomes a rollback point; a failure falls back exactly when the old version may be down and another spec is on record. |
| Desired.KeepKeepsSafe | internal/agent/desired.go:136-200 | Keep never takes away a secret that a spec or its rollback point needs. |
| Desired.MarkingIsSafeExactly | internal/agent/agent.go:346-355 | Recording a success keeps rollbacks possible if and only if the instance still has a spec and the secrets are still there (or nothing is written). |
| Desired.RollbackPointsAreEarned | internal/agent/agent.go:280-310 | In every run whatsoever a rollback point is a spec that was reconciled successfully. |
| Desired.RollbackAlwaysPossible | internal/agent/desired.go:312-329 | In every run in which a successful reconcile is of the spec saved at that moment, reading a rollback point never fails for a missing secret. |
| Desired.LateSuccessLosesItsSecret | internal/agent/agent.go:299-333 | A reconcile that overlaps a push can record a rollback point whose secret has been collected. |
| Desired.LateSuccessLeavesAnOrphan | internal/agent/desired.go:154-163 | Or a rollback point whose instance was removed. |
| Desired.EncodeSpec | internal/protocol/server.go:433-455 | Sends the secrets that are referred to and refuses when one has no value; complete if and only if some secret was supplied or none is referred to. |
| Versions.ParseVersion | internal/pack/version.go:23-43 | The loop over the segments reads what `Parsed` says: leading numbers, and the first odd segment with the suffix. |
| Versions.ParseLeadingInt | internal/pack/version.go:45-58 | The leading number; one that does not fit an int counts as no number. |
| Versions.LeadingIntMeans | internal/pack/version.go:45-58 | Leading digits that fit an int64 are the number; none, or too many, and nothing is read. |
| Versions.ParseReadsBack | internal/pack/version.go:23-58 | Numbers that fit an int and a suffix beginning with -, + or ~ are read back as written. |
| Versions.OddSegmentEndsTheNumbers | internal/pack/version.go:35-41 | A segment with something behind its number ends the numbers: that is put in front of the suffix, and later segments are dropped. |
| Versions.CompareVersions | internal/pack/version.go:74-96 | The loop computes `Compare`. |
| Versions.CompareIsTotalPreorder | internal/pack/version.go:74-96 | Compare is a total preorder and antisymmetric in its result. |
| Versions.CompareMeans | internal/pack/version.go:60-96 | It orders versions as infinite lists of numbers, zero from some point on, and then by suffix with the empty one last. |
| Versions.CompareExactly | internal/pack/version.go:60-96 | Below, equal or above by the first number that differs, a missing one being 0; then the release is last, and of two suffixes the one that is first byte by byte comes first. |
| Versions.ParseConstraint | internal/pack/version.go:130-152 | The loop over the parts computes `ParsedConstraint`, the first bad part deciding. |
| Versions.AcceptedExactly | internal/pack/version.go:130-177 | Exactly which constraints are accepted. |
| Versions.TermReadsBack | internal/pack/version.go:154-184 | An operator, or none, before a written version is read back as that operator with the version and its number of segments. |
| Versions.WrittenTerm | internal/pack/version.go:154-184 | `>=`, `>`, `<=`, `<`, `=`, `~`, `^` and no operator in front of a written version are read as themselves. |
| Versions.TermErrors | internal/pack/version.go:154-177 | Why a term is refused: a `|` first, then nothing behind the operator, then `!=`. |
| Versions.TermMeans | internal/pack/version.go:204-241 | What each operator matches, in terms of that order and of the numbers that must be the same. |
| Versions.TermIsConvex | internal/pack/version.go:204-241 | Between two versions that a term matches, of any operator, it matches every version. |
| Versions.MatchesIsConvex | internal/pack/version.go:195-202 | The same for every conjunction. |
| Versions.TildeAndCaretExpand | internal/pack/version.go:108-109 | `~` and `^` agree with their documented ranges if and only if the version is not a pre-release of the upper bound. |
| PackIndex.Index.Add | internal/packindex/index.go:125-136 | After any additions each list is what was added under the name, stably sorted from the highest version down. |
| PackIndex.Index.Resolve | internal/packindex/index.go:154-175 | Unknown name first, then a bad constraint; otherwise a highest matching version, the one added first among equals, and a failure exactly when none matches. |
| PackIndex.ResolutionMeans | internal/packindex/index.go:154-175 | Said outright: nothing of that name; an unreadable constraint; a version of that name that matches with none that matches above it; or none that matches. |
| PackIndex.SortedFirstIsBest | internal/packindex/index.go:169-173 | The first match of the sorted list is the best match of the unsorted additions. |
| PackIndex.BestIsBest | internal/packindex/index.go:154-175 | That best match is a maximum, and the earliest of the maxima. |

## Left out

- HTTP, gRPC and CLI plumbing, logging, audit and event records, the database, vault encryption, and the text of error messages: no property of their own here.
- Errors of the store and the file system: a step either happens or is not taken; records are listed in the order of their numbers, and rollouts in the order they were opened.
- `AbortRollout` is a version change back to the starting version; only the reason it writes afterwards is not modelled.
- Rollouts.RolloutService.SetRolloutPaused: the refusal while the component is being removed (`refuseIfRemoving`) is not modelled.
- Rollouts.RolloutService.ChangeTo: starts where the rollout is opened; the refusals before that (no such Pack, already on the version, an upgrade that is not compatible) and dry runs are not modelled.
- Progress.CalmTicksFinish: for stretches of ticks only; a pause in between stops the judging but not the batch clock.
- Roles.RoleOrder: the requirements of one role are visited by name, as in the source; of their order among themselves nothing is stated beyond `ByNameMeans`.
- Gate.CheckGate: blockers stay in batch order, where the source sorts them, and the time left is not rounded for display.
- Roles.CheckRoles: the rules on the spelling of names, cardinality and scope report separately; none of them can hide one of these findings.
- TemplateSoundness.NothingMissed: a reference is a field chain that starts at the top. Parameters read through a `$` variable, through a dot that is bound anew (`{{ with .Params }}{{ .x }}{{ end }}`, `{{ template "t" .Params }}`) or by `{{ index .Params "x" }}` are not modelled, and the walk does not collect them by name. Case folding is that of ASCII.
- Paths.EvalPersists: an expression is a finite dialogue in which a missing key ends the evaluation, as `.Paths.X` does. `index`, `len`, `range` and `toJson` on `.Paths` itself do not fail on a missing key, so expressions that use them are outside the model: they are neither monotone nor confluent.
- GateRuns.PassSeesNoRestart: says nothing about counters that run backwards; `RestartNoticedExactly` does.
- Sessions.NothingLost: for one live stream per session; `SecondStreamIsForgotten` shows why. The revision is unbounded, and a push that fails ends the stream without dropping the session, as in the code.
- ChallengeLimit.EveryMinuteIsBounded: calls are sequential with a clock that does not go back; callers racing between reading the clock and taking the lock are not modelled.
- RateLimit.AnswersAsFullHistory: the same, and the failure counter is unbounded.
- DigestCache.RightExactly: a file is read in one instant, and every change of content stamps the mtime; content put back together with its old mtime is outside the promise, as the source says.
- Desired.RollbackAlwaysPossible: for reconciles that a push does not overlap; `MarkingIsSafeExactly` gives the condition in general. What the `current` link of `internal/state` points to after a fallback is not part of this model, nor are file names (one key ending in another's suffix) and the list of blocked instances.
- Versions: text is ASCII, and white space is the six ASCII characters.
- `sort.Slice` in batch planning is modelled by a stable sort; ties are between equal ordinals and node names.
