# RyeOS recovery, startup and boundary algorithms: a verified model

This project models the parts of RyeOS that have to be right across crashes,
concurrent tasks and restarts, and proves what they keep.

* **Crash recovery of the daemon.** Thread rows, process identities, launch
  claims, stop tombstones, resume counters, follow waiters, launch windows and
  workspaces form one durable store (`RecoveryStore`). One thread's turn
  (`ThreadRecovery`), one waiter's turn (`FollowRecovery`) and one workspace's
  turn (`WorkspaceRecovery`) are functions from the store and that turn's probe
  results to an ordered list of durable writes. A crash or a failed write is a
  prefix of that list. A run is any interleaving of turns, each cut anywhere,
  with changes made by other tasks. `RecoveryService.Service` performs the
  passes one write at a time, with loops, and is proved to do exactly that.
  What the passes decide is stated again on the store alone, as tables that do
  not mention the turns (`ThreadDispositions`, `PassDispositions`,
  `FollowWaking`, `WorkspaceDispositions`).
* **Startup publication.** The ten-stage order (`StartupStages`), the coordinator
  that mirrors one lifecycle stream to HTTP and UDS (`StartupCoordinator`, its
  laws, what its counters report in `StartupReports`, and the object
  `StartupPublisher.Publisher`), the small-step machine of
  writers and requests around the admission gate (`RequestAdmission`), the
  projection's health (`ProjectionHealth`), launch-window recovery
  (`LaunchWindows`), and the sequence from thread reconciliation to Ready
  (`ReadyBoundary`, over the listings of `RecoveryListings` and the explained
  trace of `StartupTrace`).
* **Four independent algorithms.** The dependency cycle finder (`CycleFinder`),
  maintenance schedule reconciliation (`MaintenanceSchedules`,
  `MaintenanceReconciler`), the overlay delta's scan and its fold into a project
  tree (`OverlayScan`, `OverlayDelta`, `OverlayFold`) and project selector
  rewriting (`ProjectTail`).

Process liveness, kill results, boot comparison, clocks, canonicalization and
the results of fallible I/O are inputs that may differ at every use. Signatures,
hashing and parsing are represented by their outcomes.

`dafny verify dfyconfig.toml` checks everything.

## Where the code does less than its description

* The 5000 ms settlement grace belongs to the attached process, not to the
  claim: the stamp is keyed by process identity alone. A claim that replaces
  another over the same dead process can be revoked the first time it is seen
  (`ReplacedClaimLosesGrace`). The grace is a claim's own exactly when the claim
  had been seen by the time of the stamp (`GraceIsOwnIffSeen`), and it is in every
  run that installs no claim on a stamped row (`RevokedOnlyAfterGrace`).
* Revocation probes the group's leader, not its members
  (`RevocationIgnoresPresence`); members still present only keep the sweep from
  clearing the process (`MembersStopTheSweep`).
* The follow pass may wake a parent whose successor the thread pass has just
  resumed: exactly when the successor already ran and can be resumed from its
  checkpoint, and its waiter was not retired yet (`WokenSuccessorIsStarted`,
  `SuccessorIntentIff`, `StartedSuccessorMeets`). The launch claim decides
  between the two. A successor that never ran is launched by the follow pass
  alone.
* A projection progress update that enters a new stage does not reset
  `recovery_threads`, while `phase()` does (`StageEntryResets`,
  `RecoveryThreadsSurvive`).
* If the doors refuse a terminal publication (exactly when is `RefusedIff`), the
  coordinator's own snapshot is already terminal; re-entering the stage afterwards
  drops its private counters (`RefusalDropsCounters`, `ReentryKeepsCountersIff`).
  The doors never show this (`PublishedCountersAreMonotone`), unless a progress
  update erases the terminal time (`ErasedFailureShowsDrop`). For Ready the same
  order leaves the admission flag and internal gates open, which is harmless
  because admission also needs the published lifecycle
  (`DispatchOnlyAfterReady`).
* A projection update refused by validation is rolled back completely; one that
  passes validation and is refused only by the doors is not
  (`RecoveryRollsBackIff`, `DoorRefusalIsNotRolledBack`).
* A failed scan of the pending-head journal replaces an outstanding repair
  request, and a later scan that finds the journal empty then reports Current
  without that repair (`ScanClearsUnrepairedRequest`). At the ceiling of the
  generation counter an older repair clears a newer request
  (`SaturatedRepairClearsNewerRequest`). `CurrentMeansRepaired` holds in every
  other run.
* The retry counter is reset by other owners than the shutdown drain, so the
  budget is a bound between any two resets.
* A workspace that replaces a directory by a file the snapshot excludes keeps
  the base tree's files below it (`ExcludedFileKeepsTree`). Everywhere else the
  folded tree is what a process in the workspace saw, and the two differ at a
  path exactly under that condition (`FoldIsOverlayIff`).
* The delta's path order is not the walk order: `a-b` sorts before `a/b`. What
  holds is that every directory precedes everything below it.

## Model

| member | source | states |
|---|---|---|
| ThreadRecoveryLaws.TurnSettlesOnce | crates/bin/daemon/src/reconcile.rs:516-1317 | on every store, mode and probe a turn writes only its own thread and makes at most one decision: one finalization, one re-arm or one intent, where a native resume is the last write and directly follows its counter bump |
| ThreadRecoveryLaws.IntentIsSafe | crates/bin/daemon/src/reconcile.rs:516-1317 | an intent is the turn's last write, for an unblocked, non-terminal, unstopped executable thread whose identity was absent or cleared earlier in the turn after its group was proven gone, whose snapshot claim is no longer held, and with no finalization beside it |
| ThreadRecoveryLaws.StartupTurnAccounts | crates/bin/daemon/src/reconcile.rs:766-1317 | no live thread falls through a startup turn: it is resumed, settled, waiting, re-armed, owned by a follow or window record, or left untouched because its process could not be proven gone |
| ThreadDispositions.StartupTurnDecides | crates/bin/daemon/src/reconcile.rs:766-1315 | on the store alone: a startup turn resumes a thread as a kind if and only if its process is gone, its authority stands and that kind is due (its upstream, edges, waiters, windows, attempts say so); finalizes it if and only if its authority is lost or nobody else owns it and it cannot resume; re-arms it instead while shutting down |
| ThreadDispositions.StartupTurnWaits | crates/bin/daemon/src/reconcile.rs:872-980 | the recorded wait after the turn: started for 15 minutes while the live project is missing, kept until its deadline, cleared on every other outcome |
| ThreadDispositions.IntentIsDue | crates/bin/daemon/src/reconcile.rs:982-1149 | in either mode every intent has what its kind needs: a continuation an upstream that settled as continued and names it over no follow edge, an operator continuation a completed or failed upstream with a request fingerprint, a root no waiter, a native resume no other owner and attempts left |
| ThreadDispositions.StopSettles | crates/bin/daemon/src/reconcile.rs:638-719 | in either mode a stopped thread whose process is gone loses process and claim and ends with the requested status; until then nothing is written |
| ThreadDispositions.TerminalIsDrained | crates/bin/daemon/src/reconcile.rs:721-757 | at startup a terminal row whose process is gone loses process and claim and keeps its status |
| ThreadDispositions.LiveLeavesOwned | crates/bin/daemon/src/reconcile.rs:545-636 | a live sweep writes nothing but a sighting about a thread whose owner is active unless it revokes that owner, and nothing at all about a follow successor that has not started |
| RecoveryPass.PassSettlesOnce | crates/bin/daemon/src/reconcile.rs:516-1317 | over a whole pass no thread gets two intents, or both an intent and a finalization |
| RecoveryPass.PassIntentIsSafe | crates/bin/daemon/src/reconcile.rs:516-1317 | every intent of a pass ends one listed thread's turn, which stands whole in the pass's log; its prerequisites hold, and in the store the pass has then reached the listed identity and the claim that turn read are gone |
| PassDispositions.PassIntentIsDue | crates/bin/daemon/src/reconcile.rs:1000-1087 | every intent of a pass is due in the store its turn saw; for a continuation, the store the pass began with has no follow edge to it and its upstream naming it, settled as continued for a machine one, with a fingerprint for an operator one |
| PassDispositions.StartupPassDecides | crates/bin/daemon/src/reconcile.rs:516-1315 | a startup pass that reaches its end resumes and finalizes every listed live thread exactly as the table says |
| PassDispositions.InterruptedIsResumedIff | crates/bin/daemon/src/reconcile.rs:1168-1315 | a thread that was running is resumed, and not finalized, if and only if its process is gone, its authority stands, it declares a resume with context and driver, and its stored attempts are below the maximum |
| ThreadRecoveryRuns.BudgetNeverExceeded | crates/bin/daemon/src/reconcile.rs:243-270 | over every run of turns cut by crashes and interleaved with other tasks, native-resume intents since the last reset never exceed the declared maximum |
| ThreadRecoveryRuns.PrefixKeepsBudget | crates/bin/daemon/src/reconcile.rs:1168-1315 | every prefix of a turn keeps emitted resumes at or below the durable counter and the counter within the budget, because the bump is durable before the intent |
| OwnerRevocation.RevokedOnlyAfterGrace | crates/bin/daemon/src/reconcile.rs:545-606 | over every run an active owner is revoked only when an earlier sweep stamped this exact attached identity at least 5000 ms before and target and group leader are dead now; if no event installed a claim on the stamped row, that sighting was of the revoked claim itself |
| OwnerRevocation.GraceIsOwnIffSeen | crates/bin/daemon/src/reconcile.rs:545-606 | on a stamped row, no sweep whatever its probes can revoke the held claim early if and only if that claim had been seen on this process by the time of the stamp |
| OwnerRevocation.ReplacedClaimLosesGrace | crates/daemon/ryeos-app/src/runtime_db.rs:3839-3865 | after any run, installing a never-sighted claim on a stamped row extends to a sweep that revokes it unseen, whoever else is in the group |
| OwnerRevocation.ReplacedClaimExample | crates/daemon/ryeos-app/src/runtime_db.rs:3839-3865 | one concrete run of that kind |
| OwnerRevocation.RevocationIgnoresPresence | crates/bin/daemon/src/reconcile.rs:560-606 | whether an active owner is revoked does not depend on which other group members are present |
| OwnerRevocation.MembersStopTheSweep | crates/bin/daemon/src/reconcile.rs:417-445 | what they do decide: a revoking sweep of a live thread goes on to clear the process if and only if the leader was found dead without a kill, the clear succeeds, and no member is left or another boot is proven |
| WorkspaceRecovery.SagaIsSafe | crates/bin/daemon/src/reconcile.rs:1468-1837 | over every run with crashes and other tasks: a row is Closed only with its root gone, a root is removed only for a row already closing, a row is orphaned only on a dead group and in a live sweep only when bound and without an active owner, and a closing row only closes |
| WorkspaceRecovery.SafePrefix | crates/bin/daemon/src/reconcile.rs:1663-1837 | cutting a safe list of workspace writes anywhere keeps the saga's invariants |
| RecoveryService.SweepKeepsFreeze | crates/bin/daemon/src/reconcile.rs:1526-1601 | over a whole startup sweep, however it ends, a Freezing row with a live thread and its own owner stays Freezing with its root on disk; if the sweep succeeds its freeze was recovered or its thread is quarantined |
| RecoveryService.FailedFreezeBlocks | crates/bin/daemon/src/reconcile.rs:1526-1601 | if its freeze does not recover (group unavailable, not quiesced, or snapshot not bindable) a successful sweep quarantines its thread |
| RecoveryService.UnrecoveredFreezeQuarantines | crates/bin/daemon/src/reconcile.rs:516-523 | over the sweep and the thread pass after it: the row and root survive, and unless the sweep's final row is bound with the group gone or quiesced, no entry of the thread pass's log names its thread |
| WorkspaceDispositions.SweepFate | crates/bin/daemon/src/reconcile.rs:1468-1661 | a sweep that reaches its end leaves every listed row in the state, and with the root, that its owner, process, binding and destroy evidence decide, whatever the other rows are |
| WorkspaceDispositions.LiveSweepKeepsUnbound | crates/bin/daemon/src/reconcile.rs:1614-1625 | a live sweep, however it ends, leaves a workspace not yet bound to a thread exactly as it is, row and root, unless it is closing |
| WorkspaceDispositions.StartupOrphansIff | crates/bin/daemon/src/reconcile.rs:1584-1661 | a startup sweep orphans a row if and only if its process is gone and it is not a freeze its live thread may still resume; its root goes only if it may be destroyed |
| WorkspaceDispositions.BlockedIff | crates/bin/daemon/src/reconcile.rs:1526-1601 | a sweep that reaches its end quarantines exactly the threads whose journaled freeze cannot be trusted: its group moves or its liveness is unknown, or its snapshot is neither bound nor can be |
| FollowRecoveryLaws.RelaunchesOnlyPending | crates/bin/daemon/src/reconcile.rs:1885-2135 | every child relaunch of a follow pass is for a child that was pending when the pass began |
| FollowRecoveryLaws.FollowPassCovers | crates/bin/daemon/src/reconcile.rs:1965-2077 | a successful follow pass relaunches, queues, inserts or finds cancelled every pending child in an unsettled slot of a waiting waiter |
| FollowRecoveryLaws.PendingIff | crates/bin/daemon/src/reconcile.rs:139-197 | a child counts as pending if and only if it is created without a process group, declares no native resume, and was admitted for exactly the launch that the first slot naming it in its chain's waiter describes |
| FollowWaking.WokenIffDeliverable | crates/bin/daemon/src/reconcile.rs:1891-2060 | a successful follow pass wakes exactly the waiters it leaves ready or resuming; those listed so are woken and unchanged; one woken otherwise has its whole cohort recorded, each slot as it was or with its child's settled tip, and an adopted successor has a follow edge |
| FollowWaking.WokenCohortIsSettled | crates/bin/daemon/src/reconcile.rs:1965-2060 | a parent not listed ready is woken only with the settled tip of every child of its cohort |
| FollowWaking.SettledCohortIsWoken | crates/bin/daemon/src/reconcile.rs:2033-2056 | a waiting waiter whose whole cohort has settled is woken by the pass that finds it so |
| FollowWaking.ReservedConverges | crates/bin/daemon/src/reconcile.rs:2063-2135 | a reserved waiter is left while its parent may still drive it, cleared if its slots are not the expected ones, and else committed with its successor, ready at once if its cohort was; any other waiter disappears only if stale, undeliverable and without its parent |
| FollowWaking.RelaunchesOnlyStartable | crates/bin/daemon/src/reconcile.rs:1979-2032 | a child is relaunched only if no launch window holds it queued or cancelled and none is still to take it |
| FollowWaking.TipOf | crates/daemon/ryeos-app/src/thread_lifecycle.rs:3599-3621 | the tip read from a settled lineage is the status at its end |
| FollowWaking.TipHasLineage | crates/daemon/ryeos-app/src/thread_lifecycle.rs:3599-3621 | a tip exists only at the end of a chain of continued threads, each naming the next |
| StartupRecovery.PassesDoNotOverlap | crates/bin/daemon/src/reconcile.rs:139-197 | no thread is both a resume intent of the active-thread pass and a child relaunch of the follow pass that runs after it |
| StartupRecovery.WokenSuccessorIsStarted | crates/bin/daemon/src/reconcile.rs:1013-1033 | if an intent of the thread pass is for the successor of a waiter the follow pass wakes, it is the checkpoint resume of a successor already running |
| StartupRecovery.SuccessorIntentIff | crates/bin/daemon/src/reconcile.rs:1013-1033 | some startup turn gives a follow successor an intent if and only if it was already running and can be resumed |
| StartupRecovery.StartedSuccessorMeets | crates/bin/daemon/src/reconcile.rs:1891-1916 | on every such successor with an unretired waiter both passes do act |
| StartupRecovery.PassesLeaveNoGap | crates/bin/daemon/src/reconcile.rs:991-1149 | a pending child the first pass leaves alone is terminal after the tombstone repair or covered by the follow pass |
| StartupRecovery.RepairKeepsLineage | crates/daemon/ryeos-app/src/cascade.rs:155-184 | settling cancelled window members changes no thread's birth facts and no follow bookkeeping |
| StartupRecovery.RepairSettles | crates/daemon/ryeos-app/src/cascade.rs:155-184 | every tombstoned member named is dropped from its window unless it runs, and cancelled if it was created and has no process |
| RecoveryService.Service.ReconcileExecutionWorkspaces | crates/bin/daemon/src/reconcile.rs:1468-1661 | the workspace loop leaves exactly the store and the blocked set of the sweep, whose fate per row is `SweepFate` |
| RecoveryService.Service.ReconcileThreads | crates/bin/daemon/src/reconcile.rs:516-1317 | the thread loop, one write at a time, leaves exactly the store and intents of the pass that `StartupPassDecides` and `PassIntentIsDue` describe; a failed turn drops the intents but not the writes |
| RecoveryService.Service.ReconcileFollow | crates/bin/daemon/src/reconcile.rs:1885-1956 | the waiter loop leaves exactly the store and actions of the follow pass that `WokenIffDeliverable` describes |
| RecoveryService.Service.ReconcileActiveThreads | crates/bin/daemon/src/reconcile.rs:470-1317 | workspaces first, then the threads they do not quarantine; succeeds exactly when both reach their end, and the whole log obeys the pass law |
| RecoveryService.Service.ListRunning | crates/bin/daemon/src/reconcile.rs:476-497 | the rows visited are the listed ones followed by attached threads not already listed, without repetition |
| StartupStages.AcceptedLanguage | crates/bin/daemon/src/startup.rs:317-377 | the accepted phase sequences up to scheduler reconciliation are exactly Boot* Open+ Rebuild* Replay* RecoverScheduler+ Replay+ Threads+ Follow+ Replay* Scheduler+ |
| StartupStages.StageFixesPhase | crates/bin/daemon/src/startup.rs:317-377 | an accepted step publishes its stage's phase, and the phase changes exactly when the stage does |
| StartupCoordinatorLaws.OneLifecycleStream | crates/bin/daemon/src/startup.rs:425-767 | at every two moments of every call sequence: HTTP equals UDS, valid, same identity, sequence strictly increasing, nothing after a terminal publication, and only a failure after shutdown began |
| StartupCoordinatorLaws.PublishTogether | crates/bin/daemon/src/startup.rs:759-767 | both doors take a response or neither does, so the half-published outcome cannot arise |
| StartupCoordinatorLaws.ReadyIsEarned | crates/bin/daemon/src/startup.rs:650-707 | Running is published only with internal gates released and after every mandatory phase in order |
| StartupCoordinatorLaws.StageDeterminesPhase | crates/bin/daemon/src/startup.rs:294-298 | in a live startup with no unpublishable terminal call, the coordinator's own phase is its stage's |
| StartupCoordinatorLaws.RefusedIff | crates/bin/daemon/src/startup.rs:650-753 | a terminal call that passes its guards is refused if and only if the time is blank, the error is blank, the sequence cannot increase, or the start time was altered |
| StartupCoordinatorLaws.PublishedCountersAreMonotone | crates/bin/daemon/src/startup.rs:474-617 | what the doors show, with no condition on terminal calls: a published Starting lifecycle carries its stage's wire phase, and between two published at one stage no counter decreases or vanishes, pending never grows, done stays within total |
| StartupCoordinatorLaws.ErasedFailureShowsDrop | crates/bin/daemon/src/startup.rs:474-506 | why progress updates must leave the terminal times alone for that |
| StartupCoordinatorLaws.CountersAreMonotone | crates/bin/daemon/src/startup.rs:770-832 | the same for the coordinator's own snapshot, in every run with no unpublishable terminal call |
| StartupCoordinatorLaws.ReentryKeepsCountersIff | crates/bin/daemon/src/startup.rs:441-461 | re-entering the current stage keeps the counters if and only if the coordinator is in step or has none |
| StartupCoordinatorLaws.RefusalDropsCounters | crates/bin/daemon/src/startup.rs:720-753 | in every live state a blank failure is refused, re-entry then drops every private counter, and the doors show neither |
| StartupCoordinatorLaws.StageEntryResets | crates/bin/daemon/src/startup.rs:541-563 | entering a new stage restarts the phase clock and every counter on both entry points, except that a projection update keeps the recovery count |
| StartupCoordinatorLaws.RecoveryThreadsSurvive | crates/bin/daemon/src/startup.rs:552-561 | the recovery count outlives its stage on every projection update that leaves the follow stage |
| StartupCoordinatorLaws.RecoveryRollsBackIff | crates/bin/daemon/src/startup.rs:508-617 | a failing projection update leaves everything as before if and only if it fails before publication |
| StartupCoordinatorLaws.DoorRefusalIsNotRolledBack | crates/bin/daemon/src/startup.rs:602-616 | after a refused failure, every update its own validation accepts is refused by the doors and stays in the snapshot |
| StartupReports.AcceptedUpdateShows | crates/bin/daemon/src/startup.rs:541-617 | an update taken within its stage: both doors show, counter by counter, the larger of the old and the reported value, the smaller of the pending counts, the reported total, and an unchanged phase clock and recovery count |
| StartupReports.CountersAreReports | crates/bin/daemon/src/startup.rs:541-617 | over every run with no refused terminal call and progress updates that leave the projection counters alone: each counter is the largest value reported since its stage was entered, the pending count the smallest, the total the last; when the last call was a report that was taken, both doors show it |
| StartupReports.UpdateTakenIff | crates/bin/daemon/src/startup.rs:508-617 | a live startup takes a projection update if and only if its stage may come next, its time is neither blank nor earlier, the sequence can grow, and its total covers what is done and does not shrink |
| StartupReports.PhaseShows | crates/bin/daemon/src/startup.rs:425-472 | a live startup takes a phase call if and only if its stage may come next, its time is not blank and the sequence can grow; both doors then show it, with counters kept on re-entry and cleared on entry |
| StartupReports.ShutdownIsFinal | crates/bin/daemon/src/startup.rs:712-718 | from a shutdown call to the end of every run, admission stays closed and both applications withdrawn |
| StartupReports.ApplicationOnce | crates/bin/daemon/src/startup.rs:625-648 | over every run the application is published at most once |
| StartupPublisher.Publisher.EnterPhase | crates/bin/daemon/src/startup.rs:425-472 | the field-by-field method is the phase call of the model, on success and on every refusal |
| StartupPublisher.Publisher.ReportProgress | crates/bin/daemon/src/startup.rs:474-506 | the progress call of the model |
| StartupPublisher.Publisher.ProjectionRecoveryProgress | crates/bin/daemon/src/startup.rs:508-617 | writing in place, validating and rolling back equals validating first, on the call whose published counters `AcceptedUpdateShows` and `CountersAreReports` describe |
| StartupPublisher.Publisher.PublishApplication | crates/bin/daemon/src/startup.rs:625-648 | both surfaces once, or nothing |
| StartupPublisher.Publisher.PublishReady | crates/bin/daemon/src/startup.rs:650-707 | the ready call of the model |
| StartupPublisher.Publisher.BeginShutdown | crates/bin/daemon/src/startup.rs:712-718 | admission closed and both applications withdrawn, the published lifecycle kept |
| StartupPublisher.Publisher.PublishFailed | crates/bin/daemon/src/startup.rs:720-753 | the failure call of the model |
| StartupPublisher.Publisher.PublishResponse | crates/bin/daemon/src/startup.rs:759-767 | UDS first, then HTTP, each with its own checks |
| RequestAdmission.DispatchOnlyAfterReady | crates/bin/daemon/src/startup.rs:227-241 | in every interleaving of single loads and stores, a dispatched request implies Ready on both doors and released gates |
| RequestAdmission.NoDispatchAfterShutdown | crates/bin/daemon/src/startup.rs:712-718 | once shutdown has completed no request is dispatched any more, whatever it had loaded before |
| RequestAdmission.LateRequestsAreRefused | crates/bin/daemon/src/startup.rs:227-241 | a request whose first load follows a completed shutdown never reaches the dispatcher |
| RequestAdmission.ReachableIsSafe | crates/bin/daemon/src/startup.rs:625-767 | in every interleaving the doors differ only between the two stores of one terminal publication, and a completed shutdown leaves admission closed and applications withdrawn |
| RequestAdmission.UndisturbedDispatch | crates/bin/daemon/src/startup.rs:227-241 | three loads in a row dispatch if and only if Ready, admission and application all hold |
| RequestAdmission.UndisturbedReady | crates/bin/daemon/src/startup.rs:650-707 | a Ready call that nothing disturbs ends Running on both doors, admission open and gates released, if and only if startup is live, complete, published on both doors and accepted |
| ProjectionHealth.CurrentMeansNothingPending | crates/daemon/ryeos-app/src/projection_health.rs:59-62 | over every run the status test and the full test of readiness agree |
| ProjectionHealth.CurrentMeansRepaired | crates/daemon/ryeos-app/src/projection_health.rs:68-182 | in every run with no masking scan failure and no saturated generation, Current means a successful repair begun after the latest request |
| ProjectionHealth.OlderRepairIsIgnored | crates/daemon/ryeos-app/src/projection_health.rs:80-89 | below the ceiling an older repair changes nothing a newer request recorded |
| ProjectionHealth.RepairRestoresIff | crates/daemon/ryeos-app/src/projection_health.rs:68-182 | from every run that left the projection stale, an undisturbed repair makes it Current if and only if it succeeds and nothing is pending |
| ProjectionHealth.WorkIsNoticed | crates/daemon/ryeos-app/src/projection_health.rs:68-182 | after every run a request, a pending transition or a failed scan leaves the projection other than Current |
| ProjectionHealth.ScanClearsUnrepairedRequest | crates/daemon/ryeos-app/src/projection_health.rs:132-167 | from every run with an unrepaired request, a failed scan and then an empty one report Current with it still unrepaired |
| ProjectionHealth.SaturatedRepairClearsNewerRequest | crates/daemon/ryeos-app/src/projection_health.rs:169-182 | at the generation ceiling an older repair clears a newer request |
| ReadyBoundary.EnsureClassified | crates/bin/daemon/src/main.rs:1523-1582 | passes if and only if every target is terminal, live and owned, claimed, waiting, or owned by a follow or window record |
| ReadyBoundary.StartUp | crates/bin/daemon/src/main.rs:801-1025 | with other tasks using the gaps of a given script in order: if Ready becomes visible, the steps taken are exactly the plan, the active pass and the follow pass ran over their own store's listings with the given probes and succeeded, every thread active and executable at the start, every child relaunched, every successor woken and every window member admitted was classified in the store at the check, and the projection was current after reconciliation, after dispatch and at the last snapshot after the check; otherwise Ready stays unpublished and the reason given holds (a pass that failed, a projection not current, a target without thread or owner, a refused publisher call); the publisher's calls are a prefix of the planned ones, and Ready needs no clock to have reported shutdown |
| ReadyBoundary.AddFollowTargets | crates/bin/daemon/src/main.rs:905-926 | succeeds if and only if every action has a target in the store, and adds exactly those |
| ReadyBoundary.RunActivePass | crates/bin/daemon/src/reconcile.rs:474-497 | the pass runs once, over exactly the open workspaces and the non-terminal or attached rows of its own store, with the given probes |
| StartupTrace.World.RepairIfNeeded | crates/bin/daemon/src/main.rs:834-853 | a repair runs exactly when the projection is not current, other tasks may act while it does, and it ends under the token it began with |
| ReadyBoundary.CheckTargets | crates/bin/daemon/src/main.rs:936-992 | passes only with every known target and every newly admitted window member classified in the store at the end of its trace |
| LaunchWindows.RecoverWindows | crates/engine/ryeos-executor/src/execution/launch.rs:4605-4649 | releases exactly the launched members whose chain has settled, changes nothing but windows, returns exactly the members it moved from queued to launched, and leaves nobody queued in an open window with ample room |
| LaunchWindows.Admit | crates/daemon/ryeos-app/src/runtime_db.rs:5792-5849 | admits only queued, uncancelled members of the one window, within the room given, none while a follow cohort's waiter is not waiting, and otherwise all of them if room is left |
| CycleFinder.FindCycle | scripts/lint-dependency-layers.py:60-82 | terminates on every closed finite graph; returns a real closed walk, and None if and only if the graph is acyclic |
| CycleFinder.Search.Visit | scripts/lint-dependency-layers.py:64-76 | keeps the active path a simple chain, restores it, and finishes nodes only after all their dependencies |
| CycleFinder.Dependencies | scripts/lint-dependency-layers.py:45-57 | exactly the workspace packages some table of the manifest names, renames included |
| CycleFinder.BuildGraph | scripts/lint-dependency-layers.py:85-90 | the graph is closed and its edges are exactly the declared workspace dependencies |
| CycleFinder.ForbiddenEdges | scripts/lint-dependency-layers.py:91-94 | the reported edges are exactly the graph's denied ones |
| CycleFinder.Lint | scripts/lint-dependency-layers.py:85-102 | for any rules: clean if and only if no declared dependency is denied and no chain of dependencies returns to its start |
| CycleFinder.TableIsLayering | scripts/lint-dependency-layers.py:15-33 | the script's table denies exactly the dependencies from a lower layer into a higher one |
| CycleFinder.LintWorkspace | scripts/lint-dependency-layers.py:15-102 | with the script's table: clean if and only if no dependency reaches upward through the layers and none leads back to its start |
| MaintenanceReconciler.ScheduleDirectory.Apply | crates/bin/daemon/src/maintenance_schedule.rs:87-259 | undisturbed: succeeds exactly when it should and leaves exactly the specified directory on every outcome, writing nothing to a settled one; under any outside edits the directory is the interleaving of those edits and safe writes, so its unowned entries are exactly those the last outside edit left; bad declarations write nothing |
| MaintenanceReconciler.UnownedIsOutside | crates/bin/daemon/src/maintenance_schedule.rs:166-256 | any interleaving of outside edits and safe writes keeps exactly the unowned entries of the last edit |
| MaintenanceReconciler.ScheduleDirectory.WriteDeclared | crates/bin/daemon/src/maintenance_schedule.rs:132-221 | the declaration loop stops at the first conflict with exactly the earlier declarations written |
| MaintenanceReconciler.ScheduleDirectory.ReconcileOne | crates/bin/daemon/src/maintenance_schedule.rs:169-221 | re-opens the file, keeps its operator choice and registration time, replaces it only when it differs |
| MaintenanceReconciler.ScheduleDirectory.Prune | crates/bin/daemon/src/maintenance_schedule.rs:223-256 | removes exactly the managed specs no longer declared |
| MaintenanceReconciler.ScheduleDirectory.LoadManaged | crates/bin/daemon/src/maintenance_schedule.rs:308-415 | succeeds if and only if every entry is a trusted spec of its own file name, and finds exactly the managed ones |
| MaintenanceReconciler.Validate | crates/bin/daemon/src/maintenance_schedule.rs:107-122 | accepts if and only if every declaration is valid and no id repeats |
| MaintenanceSchedules.ReconciledContents | crates/bin/daemon/src/maintenance_schedule.rs:87-259 | after success the unowned specs are exactly the old ones, unchanged, and the managed ones exactly the declared: each carries its declaration's settings and capabilities, the requester and the maintenance owner, and keeps the enabled choice and registration time of the spec it replaces |
| MaintenanceSchedules.UnownedUntouched | crates/bin/daemon/src/maintenance_schedule.rs:132-168 | every written prefix, and success, leave every unowned spec as it was |
| MaintenanceSchedules.ReconciledIsSettled | crates/bin/daemon/src/maintenance_schedule.rs:189-203 | reconciling again with the same declarations changes nothing, at any clock |
| MaintenanceSchedules.OperatorChoiceSurvives | crates/bin/daemon/src/maintenance_schedule.rs:490-521 | over every sequence of boots, pauses, resumes and unrelated edits that keeps an id declared, `enabled` is the last operator choice or the first declared value and the registration time never changes |
| OverlayDelta.ScanWorkspaceUpper | bundles/sandbox-linux-bubblewrap/adapter/src/main.rs:139-153 | succeeds if and only if every entry is supported and there are at most 100000; the list is strictly ordered by path, and at every entry's path has a deletion for a whiteout, an opaque directory for a covering one, a plain directory for a plain one, or an upsert with the file's size, hash and mode 755 or 644, and nothing else |
| OverlayScan.Scanner.ScanDirectory | bundles/sandbox-linux-bubblewrap/adapter/src/main.rs:155-258 | appends one mutation per entry below the directory, describing it kind by kind, and misses none; fails if and only if some entry below is unsupported |
| OverlayDelta.SortByPath | bundles/sandbox-linux-bubblewrap/adapter/src/main.rs:142-146 | ordered by path then kind, and a rearrangement of the input |
| OverlayDelta.AncestorsFirst | bundles/sandbox-linux-bubblewrap/adapter/src/main.rs:139-258 | every directory is listed before everything below it |
| OverlayDelta.LookupAgrees | bundles/sandbox-linux-bubblewrap/adapter/src/main.rs:139-258 | a mutation is in the list at an entry's path if and only if it is what the tree holds there |
| OverlayDelta.DeltaDeterminesTree | bundles/sandbox-linux-bubblewrap/adapter/src/main.rs:193-256 | nothing is lost: trees with the same delta are equal up to the two normalised file modes |
| OverlayDelta.DeltaIsUnique | bundles/sandbox-linux-bubblewrap/adapter/src/main.rs:139-153 | the delta depends on the tree alone, not on directory read order |
| OverlayFold.ApplyWorkspaceDelta | crates/engine/ryeos-executor/src/execution/workspace.rs:123-239 | refuses if and only if some mutation is malformed, unsafe or not what the upper layer holds, or the resulting tree is unsound; otherwise returns the fold of the mutations in order, or nothing when it changes nothing |
| OverlayFold.FoldIsOverlayIff | crates/engine/ryeos-executor/src/execution/workspace.rs:123-239 | folding a scanned upper layer into any tree gives at a path the file a process in the workspace saw there, if and only if the tree has no file at or below an excluded one of the upper layer, except under a directory that is emptied anyway |
| OverlayFold.FoldDecides | crates/engine/ryeos-executor/src/execution/workspace.rs:136-207 | in path order a path's own mutation decides it, else one that empties a directory above it, else it stays |
| OverlayFold.OwnDeltaIsAdmissible | crates/engine/ryeos-executor/src/execution/workspace.rs:158-192 | a layer's own delta passes every check against that layer |
| OverlayFold.FindIsAt | crates/engine/ryeos-executor/src/execution/workspace.rs:212-227 | opening a recorded path component by component finds the entry it was recorded for |
| OverlayFold.ExcludedFileKeepsTree | crates/engine/ryeos-executor/src/execution/workspace.rs:205 | one concrete layer and tree on which an excluded file keeps what the overlay hides |
| OverlayScan.PathInjective | bundles/sandbox-linux-bubblewrap/adapter/src/main.rs:168-179 | different entries have different paths |
| ProjectTail.RewriteProjectTail | crates/bin/cli/src/project_resolve.rs:45-98 | one pass over the tokens yields the kept tokens followed by the resolved selector, or refuses |
| ProjectTail.RewriteShape | crates/bin/cli/src/project_resolve.rs:45-98 | an accepted tail becomes its non-selector tokens in order and exactly one canonical selector |
| ProjectTail.RewriteIdempotent | crates/bin/cli/src/project_resolve.rs:45-98 | rewriting again changes nothing, from any directory and with any default |
| ProjectTail.AcceptedIff | crates/bin/cli/src/project_resolve.rs:45-139 | token by token, exactly which tails are accepted |
| ProjectTail.SelectorIs | crates/bin/cli/src/project_resolve.rs:83-139 | which selector is appended: the opt-out if a token stands for it, else the canonical form of the last named path or of the default, else the nearest marked directory at or above the canonical current one, else the opt-out |
| ProjectTail.AncestorsIff | crates/bin/cli/src/project_resolve.rs:132-136 | the walk visits exactly the path, the path cut at each later slash, and the root |
| ProjectTail.KeptByPosition | crates/bin/cli/src/project_resolve.rs:49-82 | the kept tokens are those that are neither selectors nor a bare selector's value, in order |
| ProjectTail.InlineIff | crates/bin/cli/src/project_resolve.rs:59-66 | a token carries a value inline if and only if it is a flag, an equals sign and that value |
| ProjectTail.StripProjectControlFlags | crates/bin/cli/src/dispatcher.rs:1153-1171 | keeps exactly the tokens the rewriter keeps, for every tail |
| ProjectTail.StripForgetsRewriting | crates/bin/cli/src/dispatcher.rs:1153-1171 | stripping after rewriting, or twice, is stripping once |
| ProjectTail.FindProject | crates/bin/cli/src/project_resolve.rs:124-137 | the ancestor walk finds the nearest marked ancestor |
| ProjectTail.NearestIsNearest | crates/bin/cli/src/project_resolve.rs:132-136 | no nearer ancestor carries the marker, and none does when the walk finds nothing |

## Left out

- Other tasks act between turns, not between the reads and writes of one turn; the compare-and-clear and exact-claim guards inside a turn are modelled on the store the turn started from.
- `repair_detached_spawn_links`, the follow-waiter side effects of finalization, and the temporary claim taken while a recovery refusal is settled are not part of the store's writes here.
- Launch preparation and dispatch of intents, the periodic pass's isolation of failures, and the shutdown drain's kill scheduling: the model takes their durable outcomes as changes by other tasks.
- RecoveryService.Service.ReconcileActiveThreads: takes the listings as inputs; `StartUp` reads them from the store before the sweep, which changes no thread row.
- WorkspaceRecovery.SagaIsSafe: says nothing about every dead workspace eventually closing, because the code quarantines when liveness is unavailable.
- FollowRecovery's lineage walk keeps the source's limit of 1024 hops.
- ReadyBoundary.StartUp: what dispatch, scheduler reconciliation and recovered fires write to the store happens in the gaps, as changes by other tasks.
- LaunchWindows.Admit: width, global ceiling and age order are one parameter, the room left.
- Lifecycle messages, tracing, HTTP response bodies and the UDS frame loop carry no decision and are not modelled; blank text is judged on space, tab, newline and carriage return only.
- RequestAdmission models a door's publication checks and its store as one step, since only the lock holder writes what they read; progress publications leave these cells unchanged.
- ScheduleDirectory compares the opened file by content where the source compares the inode, and loads the directory as one snapshot.
- MaintenanceSchedules.ValidDeclaration: references, cadence expressions, time zones and policies are accepted or refused by a parameter.
- OverlayFold.ApplyWorkspaceDelta: a stored object stands for its hash, the content-addressed store and staged roots are not modelled, and path safety, digests, inclusion and tree soundness are answers of the policy.
- FollowWaking.WokenIffDeliverable: assumes the unique index of child chains names each slot's own waiter; `SettledCohortIsWoken` also that a cohort's chains are distinct and indexed, as the table's keys ensure.
- StartupReports.CountersAreReports: a progress update may also write these counters itself; the two in the code do not.
- OverlayScan reads an unchanging tree; names that are not UTF-8 and files that change while hashed appear as unsupported or unreadable entries.
- `append_parent_directories` and `encode_nul_arguments` lay out launcher arguments and do not decide what a delta holds; `strip_declared_control_flags` and `validate_ref_binding_name` read command-declared flags and names and do not decide which project is selected.
- ProjectTail.RewriteIdempotent: assumes canonical paths are absolute, canonical and have canonical ancestors, and that path text is lossless.
