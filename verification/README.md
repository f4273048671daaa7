# flux-coral2, modelled and proved in Dafny

flux-coral2 connects the Flux resource manager to HPE Cray systems: "rabbit" storage
through DWS workflows in Kubernetes, Slingshot network services, PALS application
files, and the small C containers these use. This project models the parts of it that
are hardest to get right, and proves what they are for.

* **The DWS job lifecycle** (`Dws*.dfy`). A job with a DW attribute is handled by
  three parties that exchange messages: the `dws-jobtap` job-manager plugin, the
  `coral2_dws` service with its timers and cleanup thread, and a k8s workflow object
  that DWS moves through Proposal, Setup, DataIn, PreRun, PostRun, DataOut and
  Teardown. `DwsJobtap` and `DwsService` hold the callbacks. `DwsProtocol` lets them,
  the job manager and the cluster take steps in any order: messages overtake each
  other, snapshots are late, repeated or skipped, any callback of the service may fail
  at several points, the workflow may vanish at any time. `DwsInvariant`,
  `DwsServiceProof` and `DwsPluginProof` show what every step keeps, and `DwsEffects`
  what each callback adds to the log, the messages and the watch. `DwsRuns` and
  `DwsTeardown` draw the conclusions about whole runs. `DwsRemoval` and `DwsEnding` have
  invariants of their own, about the removal of the epilog and about what its end tells
  of the workflow, and `DwsAbandoned` is about workflows that outlive their job.
  `DwsAnswers` says how whatever can reach the service or the plugin at any point of a run
  is answered, and `DwsCompletion` that a job beside its workflow can always be brought to
  its end. `DwsSystem` runs the callbacks, as methods that change the plugin's and the
  service's fields and one shared bus, through any sequence of steps, and so carries the
  conclusions over to them.
* **Rabbit storage arithmetic** (`DirectiveBreakdown.dfy`, `StorageReservation.dfy`,
  `Arithmetic.dfy`): how much is allocated on which rabbit, and whether what the
  rewritten jobspec reserves covers it.
* **VNIs and CXI services** (`VniPool.dfy`, `CraySlingshot.dfy`, `CxiServices.dfy`,
  `SlingshotRuns.dfy`): an allocator that is reconfigured while jobs hold its VNIs, the
  matching by which an epilog finds the service its prolog made, and the two together
  over whole runs.
* **PALS application files** (`Apinfo.dfy`, `Bytes.dfy`): versions 1 and 5, to the byte.
* **Node disable tracking** (`SystemStatus.dfy`): a table kept by merge patches from two
  sources of events.
* **ccan containers** (`Bitmap.dfy`, `LinkedList.dfy`, `Base64*.dfy`): word-level,
  pointer-level and byte-level code against bit-by-bit, sequence and RFC 4648
  definitions.

Several properties turn out to hold only under a condition. The condition is then proved
to be exact:

* requests never go backward exactly when dws.setup is never acted on after a teardown
  has been asked for (`DwsRuns.MonotoneIffSetupBeforeTeardown`); the object's own
  desiredState never goes backward exactly when dws.setup is never acted on while it is
  Teardown (`DwsTeardown.WorkflowRisesIff`); and no teardown is ever lost exactly when
  dws.setup is acted on after a teardown request only while the patch is still to land
  (`DwsTeardown.NeverLostIff`). `setup_cb` does not look at `toredown` and
  `fetch_R_callback` does not look at `prolog_active`, so a job that is cancelled while
  its R is looked up can put a torn-down workflow back into Setup, where it stays
  (`DwsTeardown.SetupUndoesTeardown`);
* reservations of VNIs stay exclusive exactly when every step is safe
  (`VniPool.ExclusiveIffSafeRun`): the harm of dropping a held VNI comes when it is
  configured again (`VniPool.DroppedVniIsReservedTwice`);
* when a job is over, its epilog finished and no message on its way, its workflow is
  there without a teardown exactly when none of the steps tore it down
  (`DwsAbandoned.AbandonedIff`). Such a job, if it never started, had its one dws.post_run
  fail at once or come before dws.create (`AbandonedBeforeStart`; inputs `FailedTwice`,
  for which two Kubernetes errors are enough, and `CreatedTooLate`); if it started, its
  dws.post_run failed or a dws.abort failed at once (`AbandonedAfterStart`; input
  `FailedAfterRun`). The service itself never removes the epilog of a job that started while the
  workflow is there and nobody has asked for its teardown (`DwsEnding.StartedIsNotRemoved`);
* doc/guide/slingshot.rst:135 asks that VNIs not be reused before the service that
  carries them is destroyed, but `job_state_cleanup_cb` releases them on entry to CLEANUP,
  whether the prolog is over or not and in parallel with the epilog. No service on the
  device carries a VNI of a job whose prolog runs, in any prolog, exactly when no prolog
  runs while the service stands that was created for a job with which its own was made to
  share a VNI (`SlingshotRuns.PrologsNewIff`; it fails in `EpilogHitsNewOwner` and
  `LatePrologCollides`, with a pool that does nothing wrong);
* the epilog runs a second time in housekeeping (etc/slingshot-cxi-cleanup.sh:7) and does
  not ask whose service it finds. Each live job keeps its own service exactly when, besides
  that, no epilog of a job without a service hits that of a live job with the same user
  and VNIs (`SlingshotRuns.OneEachIff`). Keeping to the guide is not enough: in
  `SecondEpilogHitsNewOwner` no VNI is reused too early, and the second epilog of one job
  destroys the service of the next;
* base64 decoding inverts encoding exactly for injective alphabets with 'A' and without
  '=' (`Base64.RoundTripIffUsable`);
* the SSD that the jobspec reserves covers an unconstrained placement across servers
  exactly when the minimum allocation size is at most what one share of nodes reserves,
  and a fixed number of allocations exactly when a rabbit's share of them fits its nodes'
  part (`StorageReservation.CoveredIffCoverable`; it fails in `MinimumOutgrowsReservation`
  and `SingleServerOutgrowsReservation`);
* after an online update the status table is exact, a node being Disabled if and only if
  it is offline or drained, exactly when no node is stale: undrained while offline, and
  not drained since (`SystemStatus.ExactIffNoneStale`, `ExactSinceIff`; it fails in
  `OfflineNodeIsEnabled`). That is with patches accepted; with refused ones,
  `SystemStatus.WrongIff` says exactly which nodes are marked wrongly, and one that comes
  online in a refused update can stay Disabled for good (`RefusedNodeStaysDisabled`).

Assumptions about the surroundings, beyond what the preconditions say:

* DWS: snapshots arrive in order; only the service writes desiredState; a job does not
  start after a severity-0 exception or while its prolog is active, and stays in CLEANUP
  while its epilog is active (doc/guide/dws.rst:269, 307-308); calls into the job manager
  succeed; the plugin is not reloaded. Messages may overtake each other, two requests of
  the plugin to the service included, which the source neither promises nor rules out; of
  the runs that show a property to fail, only `DwsAbandoned.CreatedTooLate` rests on that. A request counts as made when there is an
  object to receive it; teardown requests count when they are handed to the cleanup
  thread. Exceptions that the service raises on a job are among those that can happen at
  any time.
* Rabbit storage: the jobspec's node count is that of the nodes the job receives.
  Ceilings and quotients are exact; the Python divisions go through floats, which agree
  for numerators below 2^53.
* VNIs: `idset_alloc` picks any free id; a NULL idset is an empty one; a job enters RUN
  once, and its prolog runs once.
* apinfo: a little-endian machine with 64-bit `size_t` and 32-bit `int`.
* Bitmaps: 64-bit words on a little-endian machine, so the byte swap is not the identity.

## Model

| member | source | states |
|---|---|---|
| `DwsRuns.MonotoneIffSetupBeforeTeardown` | src/modules/coral2_dws.py:321-503 | In every run, the desiredStates the service requests never go backward if and only if no dws.setup was acted on after a teardown had been asked for. |
| `DwsRuns.MonotoneMeans` | src/modules/coral2_dws.py:729-805 | The recursive reading of "never backward" is the pairwise one over the requests in the log. |
| `DwsTeardown.WorkflowRisesIff` | src/modules/coral2_dws.py:321-375 | In every run, the desiredState of the object, as the watch shows it, never goes backward if and only if no dws.setup was acted on while it was Teardown. |
| `DwsTeardown.NeverLostIff` | src/python/flux_k8s/cleanup.py:140-190 | In every run, a teardown that was asked for is at every point on its way or made, while the object exists, if and only if dws.setup was acted on after it only while a patch was pending. |
| `DwsTeardown.SetupUndoesTeardown` | src/modules/coral2_dws.py:321-375 | A possible run after which the workflow is back in Setup, nothing is pending and the service believes it torn down: all three properties fail. |
| `DwsTeardown.TornDownTouches` | src/modules/coral2_dws.py:760-765 | Once a teardown was asked for, only a late dws.setup, a landing patch, the controllers and a deletion touch the object. |
| `DwsRuns.LateSetupGoesBack` | src/modules/coral2_dws.py:321-375 | From any reachable state, acting on dws.setup after a teardown request makes the log go backward. |
| `DwsRuns.PrologSuccessIsEarned` | src/modules/coral2_dws.py:768-794 | In every run, before every successful end of the prolog there are, in order, the request for Setup, its report, then the same for DataIn and PreRun. |
| `DwsRuns.PrologFinishedOnce` | src/job-manager/plugins/dws-jobtap.c:65-400 | In every run, the prolog is finished at most once and is not active after a severity-0 exception has been handled. |
| `DwsRuns.StartFollowsProlog` | src/job-manager/plugins/dws-jobtap.c:814-861 | A job that started had its prolog finished exactly once, with success. |
| `DwsRuns.SomeJobStarts` | src/modules/coral2_dws.py:768-794 | A possible run in which the prolog ends well and the job starts. |
| `DwsRuns.EpilogStartedOnce` | src/job-manager/plugins/dws-jobtap.c:452-593 | In every run, the epilog is started exactly once when the callback that is due has been called, however often; with run_started equal to whether a start event was posted; and not before. |
| `DwsRemoval.DeletionFollowsRemoval` | src/modules/coral2_dws.py:746-759 | In every run, once the service has asked for the workflow's deletion, it has sent dws.epilog-remove or the plugin has ended the epilog itself as it sent an abort. |
| `DwsAbandoned.AbandonedIff` | src/modules/coral2_dws.py:408-540 | In every run, the workflow of a job that is over, its epilog finished and no message on its way, is there without a teardown if and only if none of the steps tore it down: each request for one failed at once or found no object, no timer did, and no snapshot was handled with an error or with DataOut finished. |
| `DwsAbandoned.AbandonedBeforeStart` | src/modules/coral2_dws.py:452-488 | If the job never started, its dws.post_run was handled exactly once, and failed at once or came before dws.create. |
| `DwsAbandoned.AbandonedAfterStart` | src/modules/coral2_dws.py:452-540 | If it started, its dws.post_run was handled exactly once, and that failed or a dws.abort failed at once. |
| `DwsAbandoned.FailedTwice` | src/modules/coral2_dws.py:452-503 | A run of a job that never started in which dws.post_run and dws.teardown both fail at once and the workflow is abandoned. |
| `DwsAbandoned.FailedAfterRun` | src/modules/coral2_dws.py:452-503 | The same of a job that started. |
| `DwsAbandoned.CreatedTooLate` | src/modules/coral2_dws.py:408-423 | A run in which dws.post_run overtakes dws.create and the workflow is abandoned. |
| `DwsEnding.StartedIsNotRemoved` | src/modules/coral2_dws.py:746-759 | In every run, while the workflow is there and nobody has asked for its teardown, no removal of the epilog of a job that started has been made or is on its way. |
| `DwsEnding.DebtHasCause` | src/job-manager/plugins/dws-jobtap.c:402-666 | In every run with more failed ends of the epilog, made or on their way, than aborts, some dws.post_run failed. |
| `DwsRuns.RunKeeps` | src/modules/coral2_dws.py:680-805 | The whole invariant holds after every run, its ordering part after every run that sets up before it tears down. |
| `DwsCompletion.JobCanEnd` | src/modules/coral2_dws.py:729-805 | From every reachable world in which a job runs beside a workflow that nobody has torn down, a continuation through PostRun, DataOut and Teardown ends the job without an exception, its epilog removed with success and its workflow torn down and given up. |
| `DwsAnswers.ReadyIsAnswered` | src/modules/coral2_dws.py:729-805 | After every run, a snapshot that reports any of the seven states ready, handled without a failure, is answered by the request for the next state, the message to the plugin, the teardown or the deletion, as the state has it; and a deletion leaves the epilog alone only if the run has handled a dws.abort. |
| `DwsAnswers.ReadyIsFollowed` | src/modules/coral2_dws.py:768-801 | In every world, reached by a run or not: after Setup, DataIn or PostRun ready, the object, if it is there and the entry neither torn down nor deleted, desires DataIn, PreRun or DataOut; the log ends with the report and that request, and nothing else changes. |
| `DwsAnswers.GoneIsGivenUp` | src/modules/coral2_dws.py:715-727 | If the object is gone, a teardown is asked for instead. |
| `DwsAnswers.ProposalIsAnswered` | src/modules/coral2_dws.py:808-851 | Proposal ready sends one resource update, failed exactly if the breakdowns do not fit, or none if they have been applied before. |
| `DwsAnswers.PreRunIsAnswered` | src/modules/coral2_dws.py:784-797 | PreRun ready sends dws.prolog-remove, and nothing else changes. |
| `DwsAnswers.DataOutIsAnswered` | src/modules/coral2_dws.py:802-804 | DataOut ready asks for the teardown. |
| `DwsAnswers.TeardownIsAnswered` | src/modules/coral2_dws.py:746-759 | Teardown ready sends dws.epilog-remove and marks the workflow as deleted. |
| `DwsAnswers.AbortedTeardownIsAnswered` | src/modules/coral2_dws.py:746-759 | It does not send it if the entry has the epilog removed. |
| `DwsAnswers.FlagTellsOfAbort` | src/modules/coral2_dws.py:506-520 | In every run, the entry has the epilog removed only if a dws.abort was handled. |
| `DwsAnswers.IdleIsNotAnswered` | src/modules/coral2_dws.py:729-765 | Snapshots without a state, not ready, of a deleted entry or of one torn down change nothing. |
| `DwsAnswers.FailureIsGivenUp` | src/modules/coral2_dws.py:703-727 | A failure anywhere in handling a snapshot ends in a teardown request. |
| `DwsAnswers.SetupIsAnswered` | src/modules/coral2_dws.py:321-375 | dws.setup asks for Setup unless it fails at once or the object is gone, and its reply says whether nothing failed. |
| `DwsAnswers.PostRunIsAnswered` | src/modules/coral2_dws.py:452-488 | dws.post_run of a job that ran asks for PostRun and arms the timer, unless torn down, failing at once or gone; with its reply. |
| `DwsAnswers.TeardownIsAsked` | src/modules/coral2_dws.py:408-540 | dws.post_run of a job that did not run, dws.teardown and dws.abort ask for the teardown if the object is there and remove the epilog if it is not. |
| `DwsAnswers.TeardownIsNotAsked` | src/modules/coral2_dws.py:452-540 | If they fail at once or find the entry torn down, they are just answered; dws.abort still marks the epilog as removed. |
| `DwsAnswers.TimerIsAnswered` | src/modules/coral2_dws.py:426-450 | The timers do the same whatever the entry says, and nothing without entry and object. |
| `DwsAnswers.FatalIff` | src/job-manager/plugins/dws-jobtap.c:237-322 | At any point of any run, a job is ended by an exception of others, a failed lookup of R or dws.setup while the prolog is active, breakdowns that do not fit, or a failed dws.post_run, and by no other step. |
| `DwsAnswers.EndedNeverStarts` | src/job-manager/plugins/dws-jobtap.c:237-322 | In every run, a job that had not started when such a step came never starts. |
| `DwsAnswers.FailureIsReceived` | src/job-manager/plugins/dws-jobtap.c:237-271 | A failed dws.setup, and breakdowns that do not fit, do that or nothing, and leave the prolog to the exception. |
| `DwsAnswers.RIsMissing` | src/job-manager/plugins/dws-jobtap.c:273-324 | So does a failed lookup of R. |
| `DwsAnswers.PrologIsRemoved` | src/job-manager/plugins/dws-jobtap.c:814-861 | In every run, dws.prolog-remove ends an active prolog with success and otherwise does nothing: its dummy flag is never needed. |
| `DwsAnswers.EpilogIsRemoved` | src/job-manager/plugins/dws-jobtap.c:867-907 | dws.epilog-remove ends the epilog of a job in CLEANUP and is otherwise refused. |
| `DwsAnswers.ExceptionIsHandled` | src/job-manager/plugins/dws-jobtap.c:599-666 | A severity-0 exception fails an active prolog; else it sends dws.teardown, or dws.abort with the end of the epilog, if an epilog is active. |
| `DwsServiceProof.ServiceStepKeeps` | src/modules/coral2_dws.py:321-540 | Every step of the service, its timers, the cleanup thread and the cluster keeps the invariant. |
| `DwsServiceProof.StateChangeKeeps` | src/modules/coral2_dws.py:680-805 | Handling any snapshot, with a failure anywhere, keeps the invariant. |
| `DwsServiceProof.SuccessorIsDue` | src/modules/coral2_dws.py:768-801 | A state reported ready makes exactly the next state due, however late the snapshot. |
| `DwsServiceProof.PostRunIsDue` | src/modules/coral2_dws.py:453-488 | Before PostRun has been asked for, a started job's workflow has been asked for nothing beyond PreRun. |
| `DwsServiceProof.SetupIsDue` | src/modules/coral2_dws.py:321-375 | Before Setup has been asked for, nothing has, unless a teardown. |
| `DwsPluginProof.PluginStepKeeps` | src/job-manager/plugins/dws-jobtap.c:237-666 | Every step of the job manager and every callback of the plugin keeps the invariant. |
| `DwsSystem.System.Run` | src/modules/coral2_dws.py:205-805 | The callbacks, as methods on the plugin's and the service's fields and a shared bus, taken through any sequence of steps, refuse it exactly if it is impossible, end in the world of the run, and there have the invariant, the order theorems and the prolog theorems. |
| `DirectiveBreakdown.CountNodes` | src/modules/coral2_dws.py:336-343 | Each rabbit's count is the number of the job's compute nodes attached to it and the total is their sum; fails exactly on an unknown host. |
| `DirectiveBreakdown.MostCommonSorted` | src/python/flux_k8s/directivebreakdown.py:118-121 | Most nodes first, the same rabbits. |
| `DirectiveBreakdown.MostCommonStable` | src/python/flux_k8s/directivebreakdown.py:118-121 | A rabbit with at least the nodes of a later one stays before it, so ties keep their order. |
| `DirectiveBreakdown.Deal` | src/python/flux_k8s/directivebreakdown.py:114-133 | The nested loops end and give the rabbit in position p of the order its closed-form share. |
| `DirectiveBreakdown.PlacementEndsIff` | src/python/flux_k8s/directivebreakdown.py:116-126 | The placement loop ends if and only if there is a rabbit or nothing to place. |
| `DirectiveBreakdown.DealtTotal` | src/python/flux_k8s/directivebreakdown.py:114-126 | Exactly `count` allocations are placed. |
| `DirectiveBreakdown.DealtFairly` | src/python/flux_k8s/directivebreakdown.py:112-126 | Any two rabbits' counts differ by at most one, and more nodes never means fewer allocations. |
| `DirectiveBreakdown.DealtInTurn` | src/python/flux_k8s/directivebreakdown.py:112-126 | Of any two rabbits, the one with more nodes, or as many and listed first, gets as many allocations as the other or one more. |
| `DirectiveBreakdown.WeightedTotal` | src/python/flux_k8s/directivebreakdown.py:141-153 | Counts in units of g nodes add up to all nodes. |
| `DirectiveBreakdown.WeightsCoprime` | src/python/flux_k8s/directivebreakdown.py:135-153 | The counts have no common divisor but 1. |
| `DirectiveBreakdown.GcdOfNodesGreatest` | src/python/flux_k8s/directivebreakdown.py:135-135 | Every common divisor of the node counts divides the reduced gcd. |
| `DirectiveBreakdown.BuildOne` | src/python/flux_k8s/directivebreakdown.py:82-155 | By strategy, on the server set itself: one allocation per node of every rabbit in order, or so many dealt out in turn, or shares of the nodes in lowest terms; the size with its minimum; and each exception exactly when it is raised, or that it does not end. |
| `DirectiveBreakdown.BuildAllocationSets` | src/python/flux_k8s/directivebreakdown.py:77-155 | One such server set per allocation in order, or the first exception. |
| `DirectiveBreakdown.WeightedSplitSuffices` | src/python/flux_k8s/directivebreakdown.py:134-153 | A server set in proportion to the nodes provides at least the capacity asked for, and exceeds it by less than the number of allocations when the minimum does not bind. |
| `StorageReservation.NodeJobspecModifier.ApplyAllocation` | src/python/flux_k8s/directivebreakdown.py:168-212 | What one allocation adds to the SSD count and the limits; which strategy each label must have; divisions by no nodes are refused. |
| `StorageReservation.NodeJobspecModifier.ApplyAll` | src/python/flux_k8s/directivebreakdown.py:299-306 | The SSD count is the sum over all allocations and each limit the sum of what exactly its label asks for, Lustre of the OSTs alone; or the first refusal. |
| `StorageReservation.NodeJobspecModifier.Validate` | src/python/flux_k8s/directivebreakdown.py:44-55 | Accepts exactly within the limits, Lustre on average over the nodes and last, with its division by no nodes. |
| `StorageReservation.ApplyBreakdowns` | src/python/flux_k8s/directivebreakdown.py:299-311 | A list is accepted if and only if every allocation is and the sums asked for by xfs, gfs2, raw and, per node, the OSTs are within their limits; and the SSD count, or none if nothing is reserved. |
| `StorageReservation.PerNodeIsLeast` | src/python/flux_k8s/directivebreakdown.py:179-194 | The GiB per node are the least that reach, over the nodes, the minimum size and the capacity asked for. |
| `StorageReservation.PerComputeCovered` | src/python/flux_k8s/directivebreakdown.py:88-97 | A per-compute allocation is always covered by the reservation. |
| `StorageReservation.AcrossServersCoveredIff` | src/python/flux_k8s/directivebreakdown.py:134-194 | An unconstrained allocation across servers is covered if and only if the minimum size is at most gcd times the reservation per node. |
| `StorageReservation.UnclampedIsCovered` | src/python/flux_k8s/directivebreakdown.py:134-194 | In particular whenever the minimum does not bind. |
| `StorageReservation.FixedCoveredIff` | src/python/flux_k8s/directivebreakdown.py:102-133 | A fixed number of allocations is covered on the rabbit in position p of the order by nodes if and only if its closed-form share times the size fits its nodes' part of the reservation. |
| `StorageReservation.CoveredIffCoverable` | src/python/flux_k8s/directivebreakdown.py:77-194 | The three together, for every allocation that is accepted and built. |
| `StorageReservation.ReservationCoversPlacement` | src/python/flux_k8s/directivebreakdown.py:77-230 | For one result of build_allocation_sets and the SSD count of one modifier: if every allocation is coverable, the SSD GiB reserved for the nodes of each rabbit cover the bytes placed on it. |
| `StorageReservation.MinimumOutgrowsReservation` | src/python/flux_k8s/directivebreakdown.py:152-155 | A job for which the minimum size makes the placement exceed the reservation. |
| `StorageReservation.SingleServerOutgrowsReservation` | src/python/flux_k8s/directivebreakdown.py:102-133 | Jobs for which a single server exceeds the reservation of its rabbit. |
| `VniPool.Vnipool.FreeArray` | src/job-manager/plugins/vnipool.c:76-91 | VNIs go back to the pool, except those no longer configured. |
| `VniPool.Vnipool.AllocArray` | src/job-manager/plugins/vnipool.c:93-116 | That many distinct free VNIs, or none and an unchanged pool. |
| `VniPool.Vnipool.AllocOne` | src/job-manager/plugins/vnipool.c:93-116 | Some free VNI, which leaves the pool, unless there is none. |
| `VniPool.Vnipool.Restore` | src/job-manager/plugins/vnipool.c:93-116 | The error path puts back what was taken. |
| `VniPool.Vnipool.Reserve` | src/job-manager/plugins/vnipool.c:118-146 | Every outcome, with the error of each, and the new state as a step of the pool. |
| `VniPool.Vnipool.Release` | src/job-manager/plugins/vnipool.c:148-160 | A held reservation is released; otherwise ENOENT and no change. |
| `VniPool.Vnipool.CreatePool` | src/job-manager/plugins/vnipool.c:209-229 | The configured VNIs but those allocated before and after. |
| `VniPool.Vnipool.Configure` | src/job-manager/plugins/vnipool.c:178-259 | Accepts exactly sets of valid VNIs and has them configured, those free that were not allocated; a refused one changes nothing. |
| `VniPool.BoundedStep` | src/job-manager/plugins/vnipool.c:118-259 | Every operation keeps pool within universe within the valid VNIs. |
| `VniPool.RunBounded` | src/job-manager/plugins/vnipool.c:76-259 | So does every run. |
| `VniPool.ConfigureStep` | src/job-manager/plugins/vnipool.c:209-259 | A reconfiguration keeps reservations exclusive if and only if it is safe. |
| `VniPool.ReserveStep` | src/job-manager/plugins/vnipool.c:118-146 | A reservation keeps them exclusive if and only if it is safe. |
| `VniPool.ReleaseStep` | src/job-manager/plugins/vnipool.c:148-160 | A release always does. |
| `VniPool.ExclusiveStepIffSafe` | src/job-manager/plugins/vnipool.c:76-259 | The three together. |
| `VniPool.ExclusiveIffSafeRun` | src/job-manager/plugins/vnipool.c:76-259 | Over every run, reservations are disjoint and pool is universe minus all that is held, at every point, if and only if every step was safe. |
| `VniPool.NothingDroppedIsSafe` | src/job-manager/plugins/vnipool.c:231-259 | Runs in which no reconfiguration drops a held VNI and each job reserves once are safe. |
| `VniPool.NothingLeaks` | src/job-manager/plugins/vnipool.c:148-160 | When all jobs have been released, such a run has every configured VNI back. |
| `VniPool.DroppedVniIsReservedTwice` | src/job-manager/plugins/vnipool.c:231-259 | For every valid VNI, a run after which two live jobs hold it. |
| `CraySlingshot.Plugin.ConfUpdate` | src/job-manager/plugins/cray-slingshot.c:127-168 | Settings and pool after accepted and refused updates. |
| `CraySlingshot.Plugin.JobStateRun` | src/job-manager/plugins/cray-slingshot.c:206-279 | As many VNIs as the job says, or as configured if it does not say or says -1, posted and reserved; none for off or 0; the refusal, fatal or not, for a number that cannot be had; and the pool afterwards, failed posts included. |
| `CraySlingshot.RunAfterUpdate` | src/job-manager/plugins/cray-slingshot.c:127-279 | A job that enters RUN after an accepted update gets as many VNIs as that update says, configured by it and not allocated before, or the refusal. |
| `CraySlingshot.Plugin.JobStateCleanup` | src/job-manager/plugins/cray-slingshot.c:281-305 | The job's reservation, if any, is released. |
| `CraySlingshot.UndoneReservation` | src/job-manager/plugins/cray-slingshot.c:255-275 | Releasing a reservation just made puts the pool back as it was. |
| `CxiServices.ParseReservation` | src/cmd/flux-slingshot.c:480-495 | Accepts exactly arrays of integers of the allowed length and range. |
| `CxiServices.MatchReservation` | src/cmd/flux-slingshot.c:226-245 | Matches exactly a restricted non-system service with the same user and VNIs in order. |
| `CxiServices.Device.Destroy` | src/cmd/flux-slingshot.c:264-303 | What is left on the device and how many were busy, for any matcher and any replies. |
| `CxiServices.SweepAll` | src/cmd/flux-slingshot.c:264-303 | Destroying all leaves every service that does not match or cannot be destroyed, in order, and counts the busy ones. |
| `CxiServices.SweepFirst` | src/cmd/flux-slingshot.c:264-303 | Destroying the first removes just that one or counts it busy. |
| `CxiServices.SweepNone` | src/cmd/flux-slingshot.c:264-303 | Without a match nothing changes. |
| `CxiServices.MatchIsOwn` | src/cmd/flux-slingshot.c:226-245 | Among live jobs with disjoint reservations, only a job's own service matches. |
| `CxiServices.EpilogIsPrecise` | src/cmd/flux-slingshot.c:608-656 | An epilog destroys its own job's service unless it is busy and no other, in any order of services. |
| `CxiServices.PrologStepIff` | src/cmd/flux-slingshot.c:553-606 | A prolog keeps one service per live job if and only if its VNIs are new to the device. |
| `CxiServices.EpilogStep` | src/cmd/flux-slingshot.c:608-656 | The epilog of a job whose service stands keeps it, in any order of services and for any replies. |
| `CxiServices.SpentEpilogIff` | src/cmd/flux-slingshot.c:608-656 | The epilog of a job whose service is gone, or never was, keeps it if and only if it hits no live job's service. |
| `CxiServices.OneEachAlways` | src/cmd/flux-slingshot.c:553-656 | Every interleaving of prologs and epilogs, repeated ones included, keeps it up to any point if and only if every step before was harmless. |
| `CxiServices.SharedReservationHitsFirst` | src/cmd/flux-slingshot.c:264-303 | With a shared reservation the epilog destroys another job's service. |
| `SlingshotRuns.PrologsNewIff` | src/job-manager/plugins/cray-slingshot.c:206-305 | Over every run of pool and device, prologs after the release and epilogs that hit another job's service included, no service that stands carries a VNI of a job whose prolog runs, in any prolog, if and only if no prolog runs while the service stands that was created for a job with which its own was made to share a VNI. |
| `SlingshotRuns.OneEachIff` | src/cmd/flux-slingshot.c:553-656 | Over every such run, each live job has, at every point, one service of its own that matches no other job, if and only if that holds and no epilog of a job without a service hits that of a live job with the same user and VNIs. |
| `SlingshotRuns.NoReuseSuffices` | src/job-manager/plugins/vnipool.c:93-146 | If no VNI is reserved while a job holds it, a service created for a job that was given it stands or a prolog is to bring it, all prologs find theirs new, and only epilogs can do harm. |
| `SlingshotRuns.DestroyedServiceHasNoClaim` | src/cmd/flux-slingshot.c:608-656 | A run of that kind which goes on after another job's epilog has destroyed a service: its VNI goes to a third job without reuse, whose prolog finds it new. |
| `SlingshotRuns.ReuseCanBeHarmless` | src/cmd/flux-slingshot.c:553-656 | A run with reuse, up to the second epilog, in which each live job keeps its own service. |
| `SlingshotRuns.ReuseFollowsRelease` | src/job-manager/plugins/cray-slingshot.c:281-305 | With a pool that is safe, a VNI is only ever taken from a job that has released it, and for which a service stands or is still to be created. |
| `SlingshotRuns.EpilogHitsNewOwner` | src/job-manager/plugins/cray-slingshot.c:281-305 | A run with a safe, exclusive pool after which the epilog of a released job, its own service still there, destroys the service of the job that now holds the VNI. |
| `SlingshotRuns.SecondEpilogHitsNewOwner` | src/cmd/flux-slingshot.c:608-656 | A run without reuse in which the second epilog of a job destroys the service of the next. |
| `SlingshotRuns.LatePrologCollides` | src/cmd/flux-slingshot.c:553-606 | A run, harmless so far, in which the prolog of a released job is still possible and its VNI is another's. |
| `Apinfo.LocalIndex` | src/common/libapinfo/apinfo1.c:138-156 | The number of earlier tasks on the node, or -1. |
| `Apinfo.MaxTasks` | src/common/libapinfo/apinfo1.c:99-113 | The largest number of tasks on one node. |
| `Apinfo.MakePes` | src/common/libapinfo/apinfo1.c:158-179 | One PE per task with its node and local index. |
| `Apinfo.LocalIndexBelow` | src/common/libapinfo/apinfo1.c:115-179 | A local index is below its node's task count, which is at most pes_per_node. |
| `Apinfo.PesInjective` | src/common/libapinfo/apinfo1.c:158-179 | No two PEs share node and local index. |
| `Apinfo.PesSurjective` | src/common/libapinfo/apinfo1.c:158-179 | Every node and index below its task count is some PE's. |
| `Apinfo.TaskAtRank` | src/common/libapinfo/apinfo1.c:138-156 | A task stands at its rank in its node's task ids. |
| `Apinfo.Handle.SetOffsets` | src/common/libapinfo/apinfo5.c:48-77 | Each offset is where the sections before it end; optional sections have offset 0 when empty. |
| `Apinfo.Handle.SetTaskmap` | src/common/libapinfo/apinfo1.c:115-189 | Records and header describe the new task map; the host list stays. |
| `Apinfo.Handle.SetHostlist` | src/common/libapinfo/apinfo1.c:191-211 | Records and header describe the new hosts; the task map stays. |
| `Apinfo.Handle.Write` | src/common/libapinfo/apinfo5.c:94-120 | The cells of the header read back: version, size of the file, record sizes and the optional offsets; each section is at its offset, and a reader gets the stored records. |
| `Apinfo.SectionsInPlace` | src/common/libapinfo/apinfo1.c:41-97 | For any contents of all seven sections, each is at its header offset, the optional ones when they are not empty, and the file ends at total_size. |
| `Apinfo.FileReadsBack` | t/scripts/apinfo_checker.py:66-85 | Reading a file by the offsets, sizes and counts of its header gives the records, in both versions. |
| `Apinfo.NodeInverse` | src/common/libapinfo/apinfo1.h:67-70 | A node record survives its 68 bytes. |
| `Apinfo.PeInverse` | src/common/libapinfo/apinfo1.h:60-64 | A PE record survives its 12 bytes. |
| `Apinfo.CmdInverse` | src/common/libapinfo/apinfo1.h:53-57 | A command record survives its 12 bytes. |
| `Apinfo.Handle.HasPe` | src/common/libapinfo/apinfo1.c:213-246 | Whether some task runs on the node. |
| `Apinfo.Handle.GetTaskmap` | src/common/libapinfo/apinfo1.c:292-308 | The task map that was set. |
| `Apinfo.Handle.GetHostlist` | src/common/libapinfo/apinfo1.c:266-283 | The hosts that were set, each whole or cut to 63 bytes. |
| `Apinfo.Handle.Check` | src/common/libapinfo/apinfo1.c:213-246 | Accepts if and only if the nodes with tasks are 0..nnodes-1. |
| `SystemStatus.Manager.PatchResource` | src/python/flux_k8s/systemstatus.py:91-107 | The merge patch, Disabled winning; a refused patch changes no node. |
| `SystemStatus.Manager.DisableUntilUndrained` | src/python/flux_k8s/systemstatus.py:53-57 | A drain as a step of the model, its patch accepted or refused. |
| `SystemStatus.Manager.JournalUndrain` | src/python/flux_k8s/systemstatus.py:59-72 | An undrain likewise. |
| `SystemStatus.Manager.UpdateOffline` | src/python/flux_k8s/systemstatus.py:83-89 | An online update likewise. |
| `SystemStatus.ConsistentStep` | src/python/flux_k8s/systemstatus.py:53-107 | Every step keeps drained nodes Disabled and Disabled nodes explained. |
| `SystemStatus.AlwaysConsistent` | src/python/flux_k8s/systemstatus.py:53-107 | So does every sequence of accepted updates, from any initial table. |
| `SystemStatus.OnlineMakesExact` | src/python/flux_k8s/systemstatus.py:83-89 | After an online update a node is Disabled exactly if offline or drained. |
| `SystemStatus.ExactStepIff` | src/python/flux_k8s/systemstatus.py:53-107 | A step keeps that if and only if it does not undrain an offline node. |
| `SystemStatus.ExactSinceIff` | src/python/flux_k8s/systemstatus.py:53-107 | The table has been exact at every point since the latest online update if and only if no offline node was undrained since. |
| `SystemStatus.ExactIffNoneStale` | src/python/flux_k8s/systemstatus.py:53-107 | At any point after an online update, it is exact if and only if no node was undrained while offline and not drained since. |
| `SystemStatus.OfflineNodeIsEnabled` | src/python/flux_k8s/systemstatus.py:59-72 | For any host, a sequence after which it is Enabled although offline and undrained. |
| `SystemStatus.WrongIff` | src/python/flux_k8s/systemstatus.py:53-107 | After any sequence of updates, accepted and refused, from any table, exactly which nodes are marked wrongly. |
| `SystemStatus.WrongStays` | src/python/flux_k8s/systemstatus.py:83-89 | A wrong entry of a node that accepted updates keep reporting online is not put right. |
| `SystemStatus.RefusedNodeStaysDisabled` | src/python/flux_k8s/systemstatus.py:83-89 | For any host and any number of accepted updates, a sequence after which it is Disabled although online and not drained. |
| `Bitmap.SetBit` | src/common/libccan/ccan/bitmap/bitmap.h:61-64 | Sets bit n and no other. |
| `Bitmap.ClearBit` | src/common/libccan/ccan/bitmap/bitmap.h:66-69 | Clears bit n and no other. |
| `Bitmap.TestReads` | src/common/libccan/ccan/bitmap/bitmap.h:44-79 | Testing a bit reads one position of the byte-swapped word. |
| `Bitmap.MasksMeetRange` | src/common/libccan/ccan/bitmap/bitmap.c:9-60 | The masks of head, whole and tail words are exactly the bits of [n, m). |
| `Bitmap.FillRange` | src/common/libccan/ccan/bitmap/bitmap.c:37-60 | Sets exactly the bits in [n, m), for all n <= m. |
| `Bitmap.ZeroRange` | src/common/libccan/ccan/bitmap/bitmap.c:12-35 | Clears exactly the bits in [n, m), for all n <= m. |
| `Bitmap.CountLeadingZeros` | src/common/libccan/ccan/bitmap/bitmap.c:62-77 | The position of the first set bit of a non-zero word. |
| `Bitmap.FindFirstSet` | src/common/libccan/ccan/bitmap/bitmap.c:79-125 | The least set bit of [n, m), or m if there is none. |
| `LinkedList.ListNode.constructor` | src/common/libccan/ccan/list/list.h:143-158 | A node linked to itself. |
| `LinkedList.AddAfter` | src/common/libccan/ccan/list/list.h:178-188 | The ring with n right after p. |
| `LinkedList.AddBefore` | src/common/libccan/ccan/list/list.h:227-237 | The ring with n right before p; at the head, at the end. |
| `LinkedList.Del` | src/common/libccan/ccan/list/list.h:324-333 | The ring without n; a node on its own stays so. |
| `LinkedList.DelInit` | src/common/libccan/ccan/list/list.h:350-354 | The ring without n, and n on its own. |
| `LinkedList.Swap` | src/common/libccan/ccan/list/list.h:405-417 | The ring with n in o's place; a node on its own is joined instead. |
| `LinkedList.AppendList` | src/common/libccan/ccan/list/list.h:640-656 | to ++ from, and from empty, either list possibly empty. |
| `LinkedList.PrependList` | src/common/libccan/ccan/list/list.h:672-688 | from ++ to, and from empty, either list possibly empty. |
| `LinkedList.ChainExtends` | src/common/libccan/ccan/list/list.c:20-36 | Matching prev pointers leave no way back into the path but to its start. |
| `LinkedList.CheckNode` | src/common/libccan/ccan/list/list.c:20-36 | Ends on any finite, however corrupted, set of nodes with non-null next pointers, and accepts if and only if the node is on a ring whose prev pointers all match. |
| `Base64.InitMaps` | src/common/libccan/ccan/base64/base64.c:47-56 | Both tables, for any alphabet. |
| `Base64.MapsMean` | src/common/libccan/ccan/base64/base64.c:47-56 | The decode table has each letter's last position and no position for other characters. |
| `Base64.EncodedIsRfc4648` | src/common/libccan/ccan/base64/base64.c:63-114 | Every character is the one that section 4 of RFC 4648 puts there, padding included. |
| `Base64.TripletInverse` | src/common/libccan/ccan/base64/base64.c:63-144 | Decoding a quartet gives the triplet, for injective alphabets. |
| `Base64.TailInverse` | src/common/libccan/ccan/base64/base64.c:76-173 | Decoding an encoded tail gives the tail, for usable alphabets. |
| `Base64.RoundTrip` | src/common/libccan/ccan/base64/base64.c:47-204 | Decoding inverts encoding on every byte string, for usable alphabets. |
| `Base64.RoundTripIffUsable` | src/common/libccan/ccan/base64/base64.c:47-204 | It does so on all byte strings if and only if the alphabet is usable. |
| `Base64Decoding.DecodesIff` | src/common/libccan/ccan/base64/base64.c:146-204 | For any alphabet, decoding accepts exactly inputs whose characters up to the last group's padding are letters and whose last group is not a single letter, with A a letter if it is short; and how many bytes come out. |
| `Base64Decoding.DecodedIsRfc4648` | src/common/libccan/ccan/base64/base64.c:116-204 | Whatever is accepted, canonical or not, each byte is the one that section 4 of RFC 4648 makes of its letters. |
| `Base64.Encode` | src/common/libccan/ccan/base64/base64.c:88-114 | -1 and an untouched buffer if it is too small; else the encoding of 4*ceil(n/3) bytes and NULs to the end. |
| `Base64.Decode` | src/common/libccan/ccan/base64/base64.c:175-204 | -1 on a small buffer or malformed input; else the decoded bytes and NULs to the end. |
| `Base64.StripPadding` | src/common/libccan/ccan/base64/base64.c:146-156 | The input without its trailing padding. |
| `Base64Rfc4648.Rfc4648IsUsable` | src/common/libccan/ccan/base64/base64.c:212-213 | The alphabet of RFC 4648 is usable, so every byte string survives it. |
| `Base64Rfc4648.PregeneratedMaps` | src/common/libccan/ccan/base64/base64.c:212-253 | The pregenerated tables are the ones that base64_init_maps would make. |

## Left out

- Kubernetes, the Flux broker, the KVS and libcxi: they appear as steps, parameters or replies.
- JSON packing and unpacking, reference counts, logging, errno text, option parsing, heartbeats and profiling.
- Out-of-memory branches of `vnipool`, `apinfo` and the plugins.
- TransientCondition bookkeeping, `forceReady`, node-failure tolerance and the Setup and PreRun timers: to the protocol they are exceptions that can happen at any time.
- That an epilog is eventually removed: a dws.epilog-remove that arrives before the job is in CLEANUP is refused, so this depends on timing.
- Restart of the service or reload of the plugin in the middle of a job.
- Draining nodes and disabling rabbits in `abort_cb` and `postrun_timeout_cb`.
- The race of a deletion between the lookup and the patch inside `setup_cb`: it shows as a failure before the patch.
- `ChassisJobspecModifier`, the shapes of jobspec that `apply_breakdowns` refuses, and the JSON it returns.
- Bitmap words are sequences of 64 booleans; sums in `unsigned long` do not wrap; `bitmap_clz` is the portable loop, not the compiler builtin.
- StorageReservation.ReservationCoversPlacement: one way only for a list of allocations, because one that is covered generously can make up for another that is not; each allocation by itself has its exact condition.
- DirectiveBreakdown.BuildOne: the loop that does not end, without rabbits and with a positive fixed count, is reported as a result instead of being entered.
- LinkedList.CheckNode: the variant with an abort string, which prints and aborts instead of returning NULL, and the count of nodes seen.
- The debug variant of `list_del` and `list_swap`, which clears the pointers of the removed node.
- The fields of comm, nic, dist and status records of apinfo files, which the library leaves empty: their sections are laid out and read as raw records.
- SlingshotRuns.OneEachIff: one device, on which prologs and epilogs take effect one after the other.
- CxiServices: dry runs, service limits, and the `clean` command's matcher beyond the general sweep.
- SystemStatus: the journal and RPC plumbing; the JSON of the patch.
- `cray-pmi-bootstrap`, `hex`, `dws2jgf`, `getrabbit`, `rabbitmapping`, `watch`, `crd`, shell plugins and etc scripts: plumbing or easier cases of what is here.
