# Verified model of the 42U rack

42U is a plugin rack: a single-threaded host stages plugins, plans their initialization, starts them in two
phases, lends their methods to each other under leases, delivers events and capability notices, and tears
everything down in reverse order. Plugin code runs inside host calls and may call the host back at any point.
A command-line frontend turns plugin manifests and an argument vector into plugin configuration, which the
runtime validates a second time. A TypeScript edition of the core has its own lease table, call gateway and planner.

## The parts

**The engine** (`Rack*.dfy`). `RackEngine.Engine` is a class with the fields of the original's engine; its methods
are the original's operations, branch by branch. Record pointers became (identity, generation) pairs. Plugin code is
`RunPlugin`: any finite sequence of the operations a plugin can reach, with any arguments, nested as deep as it
likes. Beside the fields the engine carries a ghost trace of everything observable (calls entered and left, leases
taken and returned, publications, tokens) and the ledger the trace adds up to.

- `RackProtocol` says which events are permitted after which trace, and proves the ledger sound after every lawful
  trace; it knows nothing of the engine's tables.
- `RackState`, `RackSteps`, `RackVerdicts`, `RackMoves`, `RackBatch`, `RackStage`, `RackDown` and `RackDispatch` tie
  the tables to the ledger (`Core`), and say what a stretch of plugin activity, a dispatch, a batch or a teardown may change.
- `RackEngine` proves every operation against these; each appended event has to be permitted, so every run of the
  engine is a lawful trace (`AnyRun`).
- `RackTheorems` and `RackAnswers` draw the consequences for whole runs. They are statements about all lawful traces, hence about
  every run under every behaviour of the plugins.

The mutual recursion of the teardown (retire, bounded drain, drain, deferred unloads, unload, retire) terminates by a
lexicographic measure: registered identities without a retirement marker, then the rank of the
method. `RackEngine.Engine.Retire` and its neighbours carry it in their `decreases` clauses.

**The planners** (`PlanRules`, `Planner`, `TsPlanner`). A plan is the greedy sequence that always places the least
ready node. The rules determine it uniquely; both planners compute it; what cannot be placed is exactly what lies on
a cycle or downstream of one. The TypeScript planner's cycle report is a closed cycle exactly when its walk does not
strand, and the reason its comment gives is shown false by an example.

**The command line** (`Utf8`, `Json`, `Manifests`, `ManifestCopy`, `Catalogs`, `ConfigFreeze`, `Frontend`,
`CommandLines`, `Configurations`, `Outcomes`, `CliAgreement`). Byte strings throughout. The catalog's incremental
checks are shown equal to whole-catalog rules; the argument pass equals a grammar given as functions, and `CommandLines`
and `Outcomes` say without these functions what a line means and what it configures; what the frontend builds, the
runtime's independent validator accepts, for every accepted catalog and every argument vector; and the JSON payload
decodes, by an independent reader for sections 4 and 7 of RFC 8259, to exactly the arguments.

**The TypeScript gateway** (`TsGateway`). A call is two synchronous steps with a suspension between them; anything
may happen in between.

## Reading the contracts

- `Core(s)`: the tables agree with the ledger, and the trace is lawful. `Quiet`, `Orderly`: what holds in addition
  between operations and at depth 0.
- `Calm(s, t)`: what plugin-level activity may change. `Swept(s, t, ids)`: what a teardown or a dispatch may change;
  records other than `ids` may only leave, and only if nothing pins them. `Batch(s, t, ids)`: the same during a start
  batch, where no other record may leave at all.
- `Smooth(trace, k)` / `Faultless(trace, k)`: since event `k` nothing failed that a teardown / a start batch depends on.
- Verdict functions (`AcquireVerdict`, `CallVerdict`, ...) give the status an operation returns, error by error, in the
  order the original tests them. A method's contract equates its status with the verdict and its new state with a
  state function; allocation failure appears as a nondeterministic `Failed`, or, where it stays silent, on the trace
  (`MemoryFailed` for a queue, `Dropped` for a delivery).
- Lemmas named `...Mean`, `...Means` and predicates such as `NewsOfService`, `OthersLeft`, `InPlanOrder`, `DownInOrder`,
  `Solicited` and `Configured` say in terms of the tables and the trace alone what such functions come to.

Where the code and its comments disagree, the model follows the code. Two cases are of substance.

The comments at `src/host.cc:936-945` and `src/host.cc:2119-2120` take `not_found` from a drain to mean a queued unload
of an identity that is gone. No queued unload is ever out of date (`RackMoves.QueuedPairs`), so that never happens; yet
a drain can report `not_found`, namely exactly when the instance served last answered `not_found` to its own `stop()`
(`RackDispatch.DrainNotFound`; `RackExample.DrainReportsNotFound` is such a run). The record is then quarantined and
registered, and the request is back in the queue.

The comment at `ts/src/core/order.ts:189-191` claims that every unplannable node has an unplannable successor. It has an unplannable
predecessor, but a node downstream of a cycle may be a sink (`TsPlanner.SinkStrands`).

## Model

| member | source | states |
|---|---|---|
| RackProtocol.StepKeepsSound | src/internal.hpp:69-166 | Every permitted event, on any sound ledger, leaves the ledger sound: call frames, leases, publications and deliveries stay consistent with the lives of the instances |
| RackProtocol.LawfulIsSound | src/internal.hpp:69-166 | Every reachable ledger is sound, whatever the run |
| RackEngine.AnyRun | src/host.cc:1856-2140 | Whatever the host does and whatever plugins do inside it, the engine stays valid and its trace is lawful |
| RackEngine.CoreIsLawful | src/internal.hpp:69-166 | The table invariant implies that the trace is lawful and replays to the ledger; this carries the trace theorems to every engine state |
| RackTheorems.StepAt | src/internal.hpp:69-166 | In a lawful trace each event was permitted when it came and changed exactly what it changes |
| RackTheorems.LifecycleOnce | src/host.cc:1022-1115 | init, start, stop and destroy are each entered at most once per instance, in that order; in particular stop() is never retried |
| RackTheorems.LifecycleWord | src/host.cc:1073-1114 | The completed calls of each instance form a prefix of create.destroy, create.init(failed).destroy or create.init.[start].stop.destroy, matching its stage; nothing follows a failed stop |
| RackTheorems.DestroyedIsFinal | src/host.cc:884-911 | Once destroy() returned, the instance is never entered again, for anything |
| RackTheorems.CallsNest | src/context.cc:319-407 | On the stack of open calls only business calls appear above another frame; lifecycle and notification calls start on an empty stack |
| RackTheorems.NeverReentered | src/internal.hpp:159-166 | No instance is entered while one of its own calls is open |
| RackTheorems.LeaseStays | src/context.cc:743-762 | A lease stays on record until it is returned or its holder is cleaned up; nothing else ends it |
| RackTheorems.SubscriptionStays | src/context.cc:1044-1072 | A subscription stays on record, unchanged, until its owner gives it up, its owner is cleaned up, or shutdown drops it |
| RackTheorems.WatchStays | src/context.cc:1044-1072 | A watch stays on record, unchanged, until its owner gives it up, its owner is cleaned up, or shutdown drops it |
| RackTheorems.RunKeepsListeners | src/context.cc:1044-1072 | Between any two engine states of one run: every listener not ended so is still there with the same value, and no token of the past comes back |
| RackTheorems.DestroyedListensNoMore | src/context.cc:1044-1072 | At the moment destroy() is entered, an instance that was accepted listens to nothing, borrows nothing and lends nothing |
| RackTheorems.PinnedWhileBorrowed | src/host.cc:1022-1115 | Until its lease ends, a borrowed provider is running and neither stop() nor destroy() enters it |
| RackTheorems.InvokedUnderLease | src/context.cc:319-407 | Every business call runs under a lease on that very instance, taken earlier, not ended since, while the instance is in service |
| RackTheorems.TokensNeverRepeat | src/context.cc:122-128 | Leases, watches and subscriptions share one token sequence and no token is handed out twice, over the whole run |
| RackTheorems.NeverRevived | src/context.cc:743-762 | A credential that ended is never again on record, whatever is loaded or leased later |
| RackTheorems.ExhaustionIsFinal | src/context.cc:122-128 | Once every 64-bit token was handed out the counter stays at zero and no event of the rest of the run hands out a token |
| RackTheorems.ExhaustedAnswers | src/context.cc:122-128 | With the counter at zero no acquire, watch or subscribe succeeds, and one that passes all other checks answers limit_exceeded |
| RackTheorems.GoneLendsNothing | src/host.cc:884-911 | No lease names an instance that is not running |
| RackTheorems.EndedIsStale | src/context.cc:743-762 | For any credential without a lease, release and every well-formed call answer stale |
| RackTheorems.LeasesPinned | src/context.cc:687-727 | In every reachable state a lease names a registered, live provider of the pinned generation and version and a registered or host consumer, and its call counter equals the open calls on it |
| RackTheorems.DepthsCount | src/internal.hpp:159-166 | The engine depth is the number of open frames; a record depth is at most 1, and 1 exactly if one of its calls is open |
| RackTheorems.AvailableThenWithdrawn | src/events.cc:132-197 | Per watch and provider generation at most one available and then at most one withdrawal is delivered, never in the other order, with one version |
| RackTheorems.NoticesAreTrue | src/events.cc:132-197 | In every lawful trace, hence in every run of the engine (RackMoves.NoticeCallable and Engine.DeliverNotice carry the proof), a delivered notice has the version of that generation; available means published and running right then, withdrawn means once published and not now |
| RackVerdicts.AcquireMeans | src/context.cc:687-727 | Each answer of acquire: exactly the conditions under which it is given |
| RackVerdicts.ReleaseMeans | src/context.cc:743-762 | Each answer of release: exactly the conditions under which it is given |
| RackVerdicts.CallMeans | src/context.cc:319-407 | A call reaches its provider exactly if the lease is the caller's and pins a published, active, live, idle instance with that method, the caller is active, and the arguments fit |
| RackVerdicts.CallRefused | src/context.cc:319-407 | When exactly a call is stale, in an invalid state or over a limit, and what the other refusals imply |
| RackVerdicts.ListenMeans | src/events.cc:287-325 | Subscribe and watch are admitted exactly from the beginning of init() to the end of service, outside shutdown, while tokens are left |
| RackVerdicts.UnlistenMeans | src/events.cc:336-350 | Only who registered it gives a subscription or a watch up |
| RackVerdicts.PublishMeans | src/events.cc:362-395 | Exactly the conditions for each answer; names beginning with u42. are reserved |
| RackVerdicts.MethodsMean | src/context.cc:530-584 | A table is in order exactly if names are bounded and not empty and neither names nor numbers repeat |
| RackVerdicts.AnnounceMeans | src/context.cc:530-584 | Announcing is open exactly to a starting instance that has not done so, with at most 4096 methods |
| Base.VersionsAreNumbers | inc/42u/abi.hpp:77-85 | Versions are ordered as the numbers whose digits they are |
| RackVerdicts.AcquirePermitted | src/context.cc:687-727 | When every check of acquire passes, a lease on that provider is permitted |
| RackVerdicts.ReleasePermitted | src/context.cc:743-762 | When every check of release passes, no call is open on the lease |
| RackVerdicts.CallPermitted | src/context.cc:319-407 | The checks of a call add up: the lease exists, the provider may be entered under it now |
| RackSteps.NextTokenIsNew | src/context.cc:122-128 | The next token is unused in every table and in the whole history |
| RackSteps.Accounted | src/host.cc:899-911 | A generation whose instance still exists is the one registered under its identity |
| RackSteps.OpenCallFacts | src/context.cc:245-276 | A lease with an open call stays on record with its counter positive |
| RackSteps.Bracket | src/internal.hpp:159-166 | Whatever a plugin does inside a call, closing it moves only that instance, to the stage its entry point and status say |
| RackSteps.CallBracket | src/context.cc:245-276 | A business call gives its slot on the lease back: the counter returns to what it was |
| RackSteps.StagingPermitted | src/host.cc:1402-1474 | An identity that is not registered may be staged: whoever carried it before is gone |
| RackSteps.SnapshotOk | src/context.cc:611-627 | The notices a new watch starts with are about distinct generations in service, each deliverable |
| RackSteps.WithoutEach | src/host.cc:899-911 | Dropping an identity from a list drops its entries and keeps all others in order |
| RackSteps.WithoutCuts | src/host.cc:899-911 | Where nothing repeats exactly the one place is cut out |
| RackSteps.QueueAbout | src/context.cc:845-899 | Nothing is queued about a generation before it is published, and no withdrawal while it is |
| RackSteps.OthersKept | src/context.cc:1044-1072 | Clearing one owner keeps every subscription, watch and lease of all others, unchanged, and adds none |
| RackSteps.FirstNoticesMean | src/context.cc:616-627 | The notices a new watch starts with: one available notice for each published, active record, with its generation and version, in ascending identity order, and no other |
| RackSteps.NewsIsNew | src/context.cc:845-899 | Before a generation is published nothing was ever delivered about it |
| RackMoves.StopCallable | src/host.cc:1041-1078 | stop() may be entered once the instance is being revoked, unpublished and lends nothing |
| RackMoves.DestroyCallable | src/host.cc:884-891 | destroy() may be entered once the instance neither lends nor borrows |
| RackMoves.NoticeCallable | src/events.cc:132-197 | The notice at the head of the queue may be delivered when its watcher is reachable and its provider in service |
| RackMoves.QueuedPairs | src/host.cc:833-839 | Every queued unload names a registered record of the generation it was queued for |
| RackMoves.HolderRegistered | src/context.cc:961-1028 | The holder of every lease is registered |
| RackEngine.Engine.Acquire | src/context.cc:687-727 | Status equals the verdict, or Failed when storage for the lease fails, which spends a token and changes no table; success puts exactly one lease on record, under the next token, on the generation and version of the provider |
| RackEngine.Engine.Release | src/context.cc:743-762 | Status equals the verdict: stale, foreign and busy leases are refused and change nothing; success removes exactly that lease |
| RackEngine.Engine.Call | src/context.cc:319-407 | A failing check returns its status and changes nothing; otherwise the provider is entered under that lease, its failure is the answer, after its success the result is delivered, and afterwards the surroundings are as the plugin activity left them |
| RackEngine.Engine.CallProvider | src/context.cc:377-407 | The slot on the lease is held over the call and the delivery of its result, then given back; what the provider answers is passed on unless it is ok |
| RackEngine.Engine.Subscribe | src/events.cc:287-325 | Status equals the verdict or a storage failure; success adds exactly one subscription, of that owner to that name, under the next token |
| RackEngine.Engine.Unsubscribe | src/events.cc:336-350 | Only the owner removes a subscription; anything else is stale and changes nothing |
| RackEngine.Engine.Publish | src/events.cc:362-395 | Reserved names, inactive publishers, oversized payloads and full queues are refused; success appends one event |
| RackEngine.Engine.ScanMethods | src/context.cc:530-584 | Reports the first fault of an announced table in row order, or that there is none |
| RackEngine.Engine.Announce | src/context.cc:530-584 | Only once and only during start(); success stores exactly that table in exactly that record, a refusal changes nothing |
| RackEngine.Engine.SnapshotNotices | src/context.cc:616-627 | Exactly one available notice per published, active record, with its generation and version, in ascending identity order, all naming that watch |
| RackEngine.Engine.Watch | src/context.cc:596-639 | Success adds the watch under the next token and queues behind what was queued exactly one available notice for every published, active record, with its generation and version, in ascending identity order; all or nothing |
| RackEngine.Engine.Unwatch | src/context.cc:650-667 | Only the owner removes a watch; notices queued for it stay in the queue and are dropped at their turn |
| RackEngine.Engine.CallPlugin | src/internal.hpp:159-166 | Any entry point of any instance: the call is entered and left on the trace, only that instance moves, and a revoker that returns ok has given the lease back |
| RackEngine.Engine.CallHost | src/host.cc:1448-1453 | A factory or host-side revoker runs with the depth raised and no record entered |
| RackEngine.Engine.RunPlugin | src/context.cc:422-830 | Plugin code of any shape, host callbacks included, is calm: it moves no instance and breaks no invariant |
| RackEngine.Engine.PluginHostCall | src/host.cc:1402-1474 | Structural operations reached from a callback are refused or only queued |
| RackEngine.Engine.NoticesFor | src/context.cc:877-888 | One notice per watch in token order about one generation |
| RackEngine.Engine.QueryInvoke | src/context.cc:854-875 | The instance is entered once with the request for its invoke interface; failure is on record |
| RackEngine.Engine.QueueNews | src/context.cc:877-895 | All notices of a publication are queued and the record published, or storage failed and no table changed |
| RackEngine.Engine.Commit | src/context.cc:845-899 | Only an active, unpublished instance publishes; one that announced methods is asked first; success publishes it and queues one notice per watch at the end of the queue; any other failure is a failed query or storage |
| RackEngine.Engine.Withdraw | src/context.cc:917-941 | Success unpublishes and queues behind what was queued one withdrawal per watch, in token order; failure is a storage failure and changes no table |
| RackEngine.Engine.Revoke | src/context.cc:961-1028 | Every lease there was on the instance has its turn, in token order, busy or failed earlier ones notwithstanding: unless an earlier callback ended it, its holder is entered and asked, or the host's revoker; failed if some revoker failed, else busy if some lease was kept, else ok, and then none is left |
| RackEngine.Engine.RevokeOne | src/context.cc:971-1022 | The holder of the lease, or the host's revoker, is entered with it; ok exactly if it did not fail and the lease is gone, failed or busy otherwise |
| RackEngine.Engine.RemoveOwner | src/context.cc:1044-1072 | Of the subscriptions, watches and leases exactly those of that generation go, every other stays with the same value, nothing is added; the instance then neither borrows nor listens; queued notices stay and are dropped at their turn |
| RackEngine.Engine.DeliverNotice | src/events.cc:132-197 | The watcher is entered exactly if it is reachable and, for available, that generation is in service; a notice lost for lack of memory is on record; otherwise nothing changes |
| RackEngine.Engine.DeliverTo | src/events.cc:224-242 | A subscription is judged at its turn: its owner is entered exactly if it is still there, matches and may hear the event |
| RackEngine.Engine.DeliverEvent | src/events.cc:208-243 | The event is offered, in token order, to the subscriptions present when delivery began, each judged at its turn, unless the record says there was no memory to list them |
| RackDispatch.ListenersHear | src/events.cc:208-243 | In such a pass an owner subscribed to that name at its turn, registered and initialized or active, is entered with the event right then; over anybody else the pass goes on without a trace |
| RackDispatch.WatchersHear | src/events.cc:132-197 | Whom a notice concerns, condition by condition: exactly then its watcher is entered, or the loss is on record |
| RackEngine.Engine.DispatchOne | src/events.cc:426-442 | One unit of the budget takes the first notice and delivers it, or the first event if no notice is queued |
| RackEngine.Engine.DispatchQueues | src/events.cc:422-446 | Units are dispatched until the queues are empty or the budget is spent, and limit_exceeded is returned exactly if work is left |
| RackEngine.Engine.Drain | src/events.cc:413-453 | Refused inside a call or a drain, a no-op while a batch initializes; otherwise a dispatch pass, and unless work is left or a batch is starting, the queued unloads; not_found only if some stop() in that stretch answered it |
| RackEngine.Engine.DrainDeferred | src/events.cc:257-271 | Serves queued unloads one after the other, at most as many as were queued, up to the first failure or the end of the queue; not_found exactly if the last one served answered that to its stop(); during shutdown there are none |
| RackEngine.Engine.ServeDeferred | src/events.cc:257-271 | The head of the queue is gone afterwards, or the request is back at the head; a failed stop() of that instance is answered as it is, and not_found is answered exactly if its stop() answered that |
| RackEngine.Engine.TakeDeferred | src/events.cc:261-263 | The request taken names a registered record of the generation it was queued for |
| RackEngine.Engine.DrainBounded | src/host.cc:964-974 | Drains again while work is left over and nothing failed hard, four rounds at most; returns the status of the last round |
| RackEngine.Engine.PruneDeferred | src/host.cc:833-839 | Removes nothing: no queued unload is ever out of date |
| RackDispatch.DrainMeans | src/events.cc:413-453 | Spelled out: notices before events, first come first, unit by unit within the budget; work left over is reported; otherwise, unless a batch is starting, the queued unloads |
| RackDispatch.ServeMeans | src/events.cc:257-271 | Each turn takes up the head of the queue: its instance is gone afterwards, or the request is back at the head and the pass ends; without a failure the queue is emptied or as many were served as there were |
| RackDispatch.ServeNotFound | src/events.cc:257-271 | A pass over queued unloads answers not_found exactly if the last instance served answered that to its stop() |
| RackDispatch.DrainNotFound | src/events.cc:413-453 | A drain answers not_found exactly in that case, and then its trace holds that answer |
| RackExample.Reached | src/host.cc:1477-1642 | A host with one active instance whose unload is queued is reached |
| RackExample.ServedNotFound | src/host.cc:1073-1088 | Serving the queued unload of a registered instance whose stop() answers not_found answers not_found, with the request back in the queue |
| RackExample.DrainReportsNotFound | src/events.cc:413-453 | So a drain can report not_found although every queued unload names a registered instance |
| RackAnswers.StopReturnsOnce | src/host.cc:1073-1088 | stop() of an instance returns at most once in a run |
| RackAnswers.FailureStays | src/host.cc:1079-1088 | A failed stop() is never got over: the instance stays quarantined |
| RackAnswers.AnsweredIsForwarded | src/host.cc:1022-1115 | A retirement that answers what stop() answered, or never called it, forwards every failed stop() and invents no soft status but busy |
| RackMoves.SmoothMeans | src/host.cc:1022-1115 | What counts as a setback of a teardown: a queue without storage, a failed stop, a lease not given back; nothing else |
| RackMoves.FaultlessMeans | src/host.cc:1477-1642 | What counts as a failure of a start batch: a queue without storage, a failed init, start or query; nothing else |
| RackAnswers.GoneStoppedWell | src/host.cc:1107-1114 | An instance that is not quarantined never failed its stop() |
| RackEngine.Engine.DestroyInstance | src/host.cc:884-891 | destroy() is called once, and only that instance changes |
| RackEngine.Engine.EraseRecord | src/host.cc:899-911 | Forgets exactly the record, cuts its one place out of the initialization order, and drops the queued requests that name it |
| RackEngine.Engine.DiscardRecord | src/host.cc:923-934 | A record that was never initialized is destroyed without stop() and gone; an unknown identity is left alone |
| RackEngine.Engine.StopInstance | src/host.cc:1073-1078 | stop() is entered once; its status decides between halted and quarantined |
| RackEngine.Engine.FinishRetire | src/host.cc:1073-1114 | A successful stop is followed by destroy and the record is gone; a failed one quarantines the record and nothing else is called |
| RackEngine.Engine.NoLeaseReferences | src/host.cc:1095-1105 | After a successful stop and the clean-up no lease refers to the instance, so the branch for outstanding leases is never taken |
| RackEngine.Engine.QuietDown | src/host.cc:1043-1071 | Withdraws first, dispatches the withdrawal as far as the bounded dispatcher goes, then takes every lease back; the record survives all of it, and a failure is a setback or a hard failure of another unload |
| RackEngine.Engine.Retire | src/host.cc:1022-1115 | Refused for an identity already being retired; otherwise the record is gone with its instance destroyed, or pinned as revoking or faulted, and no other pinned record is touched; it answers what stop() answered, or stop() was never called and the answer is busy or a hard failure |
| RackEngine.Engine.RetireMarked | src/host.cc:1036-1115 | A retirement under its marker |
| RackEngine.Engine.UnloadOne | src/host.cc:1644-1707 | Refused during shutdown and for unknown identities, queued once from inside a call, otherwise the record is gone or stays with its generation; a quarantined record is never retried; a failed stop() is reported with its own status, and of the soft statuses only busy is ever the engine's own; every subscription and watch stays as it is unless its owner gave it up or was itself cleaned up meanwhile |
| RackStage.CheckIdentity | src/host.cc:1414-1418 | Accepts exactly the bounded, non-empty, NUL-free UTF-8 identities |
| RackEngine.Engine.Stage | src/host.cc:1402-1474 | Error by error in the order of the code; success registers one new created record under a new generation beside the others, a refused creation leaves the registry as it was |
| RackEngine.Engine.Refuse | src/host.cc:1454-1470 | An instance handed over with a failed status is destroyed once and its record dropped |
| RackEngine.Engine.PlanPending | src/host.cc:1485-1523 | Planning succeeds exactly if the constraints of the staged instances are sound and acyclic, and yields the one plan over them |
| RackBatch.PlannableMeans | src/host.cc:1485-1523 | A batch can be planned exactly if before names other staged instances, after names other staged or already started ones, and no circle of constraints results |
| RackEngine.Engine.InitOne | src/host.cc:1546-1563 | init() is called once; success appends to the initialization order, failure is on record |
| RackEngine.Engine.InitAll | src/host.cc:1525-1579 | Every member is initialized in planned order, or the batch is rolled back |
| RackEngine.Engine.StartOne | src/host.cc:1594-1633 | start(), then publication with one notice per watch, then bounded dispatch of that news |
| RackEngine.Engine.StartAll | src/host.cc:1581-1638 | Every member is started in planned order, or the batch is rolled back |
| RackEngine.Engine.RunBatch | src/host.cc:1525-1641 | Every init precedes every start, in the same order; all members end active and published |
| RackEngine.Engine.RollbackOne | src/host.cc:1152-1195 | A member that was not initialized is destroyed silently, any other retired |
| RackEngine.Engine.RollbackBatch | src/host.cc:1152-1195 | Members are undone last first; every member ends gone or pinned, and all are gone unless a stop, a revoker or storage failed; records outside the batch are untouched |
| RackEngine.Engine.RollbackCreated | src/host.cc:1127-1137 | A rejected plan leaves no staged record |
| RackEngine.Engine.StartPending | src/host.cc:1477-1642 | Ok means one plan over exactly the staged instances, in the planner's order of constraints, priorities and identities, was run in two phases, every init before every start, and the initialization order grew by exactly it; failure means the constraints cannot be met or something failed; each member is then gone or pinned, and all are gone unless a stop, a revoker or storage failed; established records are untouched either way |
| RackDown.TeardownCovers | src/host.cc:1241-1252 | The teardown order names every registered record exactly once |
| RackDown.TeardownIsPlaced | src/host.cc:1241-1252 | In the teardown order the initialized records stand in reverse initialization order, before all others, and these in ascending byte order |
| RackDown.TeardownRunsInOrder | src/host.cc:1767-1789 | Taking down the records in that order makes the calls in the order ShutdownAll states without it: last initialized first |
| RackEngine.Engine.ListTeardown | src/host.cc:1241-1252 | Initialized records last in first out; behind them the others, by their bytes; each registered record once |
| RackEngine.Engine.CloseDoors | src/host.cc:1731-1734 | Entry points close and queued unloads are dropped, nothing else |
| RackEngine.Engine.WithdrawAll | src/host.cc:1738-1748 | After pass one nothing is published, no phase changed and no lifecycle call was made |
| RackEngine.Engine.DrainPasses | src/host.cc:1738-1765 | All withdrawals come before the dispatch of their notices, and that before any revocation; then every instance in service is asked about |
| RackEngine.Engine.RevokeAll | src/host.cc:1758-1765 | Pass two: record by record in teardown order, every lease on an active or revoking instance has its turn as in Revoke, whatever became of others; no instance is moved |
| RackEngine.Engine.TearDownOne | src/host.cc:1769-1788 | One visit: destroyed, stopped and destroyed, or pinned |
| RackEngine.Engine.TearDownAll | src/host.cc:1767-1789 | Every record is visited exactly once in teardown order; what was visited is gone or pinned, the rest untouched |
| RackEngine.Engine.RetryPinned | src/host.cc:1791-1806 | A pinned record is still there only if it is quarantined or a setback happened, and is then reported |
| RackEngine.Engine.RunShutdown | src/host.cc:1736-1821 | The four passes; ok only if no record and no lease is left; with nothing quarantined and no setback every record is taken down in order: what was initialized last goes first, entirely before what was initialized earlier, the never initialized ones behind, by their bytes |
| RackEngine.Engine.ShutdownAll | src/host.cc:1709-1831 | Ok means every table is empty; with nothing quarantined and no setback the result is always ok, and each record is stopped (unless it was never initialized) and then destroyed, once: of two initialized records the later one entirely before the earlier one, then the never initialized ones in ascending byte order; nothing else is called |
| RackEngine.Engine.Poll | src/host.cc:2114-2140 | Refused inside a call or a drain; otherwise exactly one drain, with its status; not_found only if some stop() in that stretch answered it |
| Ordering.LessTotal | src/order.cc:32-42 | The byte order on identities is total |
| Ordering.LessIsFirstDifference | src/order.cc:32-42 | One identity is less than another exactly if it is a proper prefix of it or has the smaller byte at the first difference |
| PlanRules.MaximalUnique | src/order.cc:145-172 | There is one way to run out of ready nodes |
| PlanRules.PlanUnique | src/order.cc:145-189 | A set of nodes has at most one plan |
| PlanRules.PrecedesMeans | src/order.cc:154-164 | The smaller priority goes first; of equal priorities the identity that sorts first by its bytes |
| PlanRules.PlanInOrder | src/order.cc:145-172 | A plan places each node once, obeys every constraint, and of two nodes that could have changed places the earlier has the smaller priority or, if equal, the identity that sorts first |
| PlanRules.EdgesRespected | src/order.cc:96-143 | In a greedy sequence every predecessor of a placed node was placed before it |
| PlanRules.LeftOutIffBlocked | src/order.cc:174-188 | A maximal run leaves out exactly the nodes on a cycle or downstream of one |
| PlanRules.PlanIffAcyclic | src/order.cc:174-189 | A maximal run places every node exactly if there is no cycle |
| Planner.CheckPending | src/order.cc:69-79 | The first fault among pending identities, in order |
| Planner.CheckInitialized | src/order.cc:80-94 | The first fault among initialized identities, in order |
| Planner.Graph.AddEdge | src/order.cc:96-106 | An edge is kept once however often and from whichever end it is declared; in-degrees count predecessors |
| Planner.CollectEdges | src/order.cc:108-143 | The first faulty constraint decides the status; a clean result holds exactly the declared edges |
| Planner.PickBest | src/order.cc:154-164 | The ready node with the least priority and, among those, the identity that sorts first by unsigned bytes |
| Planner.Graph.Settle | src/order.cc:169-171 | In-degrees keep counting unplanned predecessors; the nodes that reach zero are returned, each once |
| Planner.Schedule | src/order.cc:145-172 | The result is the maximal greedy run |
| Planner.PlanOrder | src/order.cc:61-190 | Success places every node once, after all its predecessors; of two nodes of which the later could have come in the earlier one's place the earlier has the smaller priority, or the same and the identity that is a proper prefix or has the smaller byte at the first difference; a cycle reports exactly the blocked identities, sorted; failure leaves the output empty |
| Planner.PlannableIff | src/order.cc:61-190 | Accepted exactly if identities are distinct, constraints name what they may name, and there is no cycle |
| Planner.PermutationInvariant | src/order.cc:145-189 | The planned sequence does not depend on the order of the input |
| Planner.AcceptanceInvariant | src/order.cc:61-190 | Nor does acceptance |
| TsPlanner.ValidateIdentities | ts/src/core/order.ts:51-97 | Accepts exactly distinct, non-empty, not initialized identities that do not name themselves |
| TsPlanner.ExtractCycle | ts/src/core/order.ts:192-222 | The report consists of blocked nodes and is a closed simple cycle exactly if the walk does not strand |
| TsPlanner.TsPlanOrder | ts/src/core/order.ts:275-282 | Error by error; success is the unique plan, in the same order of priorities and identities; the cycle report is a closed cycle exactly if the walk over blocked nodes does not strand |
| TsPlanner.SinkStrands | ts/src/core/order.ts:189-191 | A three-node input refused as a cycle whose blocked nodes are all three, one a sink: the walk strands and the report is no cycle |
| TsPlanner.SuccessorsSuffice | ts/src/core/order.ts:189-191 | Where every blocked node has a blocked successor, as the comment claims, the walk never strands |
| TsPlanner.ReturningNeverStrands | ts/src/core/order.ts:192-222 | A walk that came back to itself cannot strand, so the two cases exclude each other |
| TsPlanner.WalkCloses | ts/src/core/order.ts:219-221 | The segment from the revisited node is a closed simple cycle |
| TsPlanner.PlannersAgree | ts/src/core/order.ts:275-282 | Both planners accept the same inputs, except that the C++ one also refuses empty or repeated initialized identities |
| Utf8.DecodeIffEncoding | host/src/cli_catalog.cc:47-88 | Decoding yields a sequence of scalar values exactly if the bytes are their concatenated encodings (sections 3 and 4 of RFC 3629) |
| Utf8.DecodingUnique | host/src/cli_catalog.cc:47-88 | No byte string encodes two sequences |
| Utf8.WellFormedIffDecodes | host/src/cli_catalog.cc:47-88 | Being an encoding and decoding completely are the same |
| Utf8.EncodeMeans | host/src/cli_catalog.cc:47-88 | The encoding octet by octet, as the table of section 3 of RFC 3629 has it |
| Utf8.AcceptByMask | src/host.cc:71-111 | The runtime acceptor accepts exactly the encodings |
| Utf8.AcceptByRange | host/src/cli_frontend.cc:59-100 | The frontend and catalog acceptor accepts exactly the same byte strings |
| ManifestCopy.CopyText | host/src/cli_catalog.cc:90-123 | Accepted exactly if bounded, present when required, NUL-free UTF-8 and within the copy budget, which it uses up by its length |
| ManifestCopy.CheckStableId | host/src/cli_catalog.cc:135-151 | Accepts exactly the stable identifiers |
| ManifestCopy.CheckVisibleName | host/src/cli_catalog.cc:153-178 | Accepts exactly the visible names |
| ManifestCopy.CheckValues | host/src/cli_catalog.cc:236-279 | Accepts exactly the consistent default and allowed values |
| ManifestCopy.CopyParameter | host/src/cli_catalog.cc:281-378 | Accepted exactly if well formed and within the budget |
| ManifestCopy.SortPositionals | host/src/cli_catalog.cc:414-421 | The positionals, each once, by index |
| ManifestCopy.CheckPositions | host/src/cli_catalog.cc:422-441 | Accepts exactly indices 0..n-1 with required positionals first |
| ManifestCopy.CheckLocalUniqueness | host/src/cli_catalog.cc:380-442 | Accepts exactly commands whose identities, option names and positions are in order |
| ManifestCopy.CopyCommand | host/src/cli_catalog.cc:444-504 | Accepted exactly if well formed and within the budget |
| Manifests.RefusedParameters | host/src/cli_catalog.cc:281-378 | What keeps a parameter out of the catalog: limits, characters, reserved names, positions, flags with values, defaults outside the allowed set, one by one |
| Catalogs.CheckKeys | host/src/cli_catalog.cc:660-702 | Accepts exactly if configuration keys of one manifest are used alike and apart from root identities |
| Catalogs.CheckManifest | host/src/cli_catalog.cc:730-830 | Accepts exactly the manifests that are in order on their own |
| Catalogs.CheckConflicts | host/src/cli_catalog.cc:704-719 | The flat-table checks decide whether the newcomer clashes |
| Catalogs.ConflictsMean | host/src/cli_catalog.cc:526-719 | The checks over the flat tables are the pairwise rules between manifests: unique names, no shadowing, plugin-local identities |
| Catalogs.AddableSpelledOut | host/src/cli_catalog.cc:526-658 | What the pairwise rules say, clause by clause |
| Catalogs.IncrementalIsGlobal | host/src/cli_catalog.cc:730-852 | Checking the newcomer against an accepted catalog is checking the whole catalog |
| Catalogs.AcceptedPrefix | host/src/cli_catalog.cc:730-852 | Every prefix of an accepted list is accepted |
| Catalogs.AcceptedIffSet | host/src/cli_catalog.cc:730-852 | Acceptance depends only on the set of entries and on plugins not repeating |
| Catalogs.OrderIndependent | host/src/cli_catalog.cc:730-852 | A list of manifests is accepted in one order exactly if it is in every order |
| Catalogs.Catalog.Add | host/src/cli_catalog.cc:730-852 | Accepted exactly if the whole catalog with it obeys the rules; a rejected add changes nothing |
| Catalogs.AddAll | host/src/cli_catalog.cc:730-852 | A list is added in full exactly if it obeys the whole-catalog rules |
| ConfigFreeze.Collect | src/host.cc:350-527 | Accepts exactly the manifests whose declarations are in order and lists these: root parameters under their identities, then command by command every parameter with a configuration key |
| ConfigFreeze.CheckShape | src/host.cc:642-686 | Accepts exactly the well-shaped values |
| ConfigFreeze.FindOwner | src/host.cc:539-610 | Finds a declaration exactly if one backs the value, and the ordinal of the first such |
| ConfigFreeze.PlacesDiffer | src/host.cc:539-610 | Different keys have different ordinals |
| ConfigFreeze.Freeze | src/host.cc:624-724 | Accepted exactly if freezable; the snapshot holds exactly the given values in strictly increasing ordinal |
| ConfigFreeze.BackedMeans | src/host.cc:539-610 | A value is backed exactly if some root parameter of that identity or command parameter of that key has its kind and sensitivity, allows that many values and each of them, and has it for its defaults if it claims to be one |
| ConfigFreeze.DeclarationsMean | src/host.cc:441-527 | The declarations stand for the root parameters and for exactly the command parameters with a configuration key, in manifest order |
| Frontend.Split | host/src/cli_frontend.cc:200-206 | Name, equals sign and value make up the token body, and the name holds no equals sign |
| Frontend.IndexOrderComplete | host/src/cli_frontend.cc:266-277 | The ordered positionals are exactly the positionals, by index |
| Frontend.IndexOrderDistinct | host/src/cli_frontend.cc:266-277 | Each once |
| Frontend.PlacesAreIndices | host/src/cli_catalog.cc:414-441 | In every command the catalog admits the positional in place k is the one declared with index k |
| Frontend.OrderedPositionals | host/src/cli_frontend.cc:266-277 | Computes that order |
| Frontend.Invocation.Record | host/src/cli_frontend.cc:226-257 | Refused exactly for a repeated non-repeatable parameter or ill-formed bytes; otherwise one more occurrence with its value |
| Frontend.Invocation.AppendPositional | host/src/cli_frontend.cc:289-300 | The next positional in index order takes the argument as it stands |
| Frontend.Invocation.AppendOption | host/src/cli_frontend.cc:315-355 | A flag takes no value; another option takes it after the equals sign or, moving on by one, from the next argument, never a bare ++ or -- |
| Frontend.Invocation.LongOption | host/src/cli_frontend.cc:426-475 | Root options before the command, its own options after |
| Frontend.Invocation.Select | host/src/cli_frontend.cc:482-494 | The first bare word must be a command, and excludes root help |
| Frontend.Invocation.AppendRest | host/src/cli_frontend.cc:389-416 | After a standalone -- every argument is a positional |
| Frontend.Invocation.Normalize | host/src/cli_frontend.cc:367-519 | Accepts exactly the command lines the grammar reads, with exactly what it reads; the lemmas of CommandLines say what that is |
| Frontend.RestAssigns | host/src/cli_frontend.cc:389-416 | Behind --, with the positionals left not yet given, arguments are admitted exactly if they are UTF-8 and positionals are left, and go to these in index order; earlier values stay |
| Frontend.ArgumentsAreData | host/src/cli_frontend.cc:367-519 | A command followed by -- and arguments is read exactly if it exists, has positionals enough and the arguments are UTF-8, whatever they look like |
| CommandLines.WrittenReadsBack | host/src/cli_frontend.cc:367-519 | A line of root options, a command, and its flags, options and positional words in any mixture, each value UTF-8 and repeated only where allowed, is read as exactly these values per parameter, with their counts and nothing else |
| CommandLines.NextArgumentIsValue | host/src/cli_frontend.cc:343-354 | From any point of the reading: a value in the next argument, if not ++ or --, reads as the value behind an equals sign, whatever follows |
| CommandLines.SeparateValueReadsAlike | host/src/cli_frontend.cc:343-354 | On whole lines, for root options before the command and its own options after it, behind any readable beginning before -- and before any rest |
| CommandLines.RefusedArguments | host/src/cli_frontend.cc:376-386 | ++, -h, --version, any other single-dash argument, and -- before the command end the reading wherever they come |
| CommandLines.RefusedOptions | host/src/cli_frontend.cc:420-475 | So do options without a name, with a dot in it, undeclared in their scope, help with a value and flags with a value |
| CommandLines.RefusedWithoutValue | host/src/cli_frontend.cc:343-354 | So does an option that takes a value with none behind it, or with ++ or -- in its place |
| CommandLines.RefusedWords | host/src/cli_frontend.cc:476-519 | So does a word that is no command, any command after root help, and one positional too many |
| CommandLines.HelpIsNoted | host/src/cli_frontend.cc:420-475 | --help asks for the help of what was selected so far, and the reading goes on |
| CommandLines.GivenBeatsDefault | host/src/cli_frontend.cc:625-650 | On such a line every parameter is worth exactly the values given for it, true for a flag that was given, and its declared defaults only where nothing was given |
| CommandLines.WrittenConfigures | host/src/cli_frontend.cc:981-1035 | And the configuration built for a plugin holds under each key just these values, in declaration order, none left out |
| CommandLines.RootFound | host/src/cli_frontend.cc:426-475 | A name stands for the first root option that bears it, and for nothing if none does |
| CommandLines.LocalFound | host/src/cli_frontend.cc:426-475 | Likewise among the options of the selected command; positionals have no names |
| CommandLines.CommandFound | host/src/cli_frontend.cc:482-494 | Likewise among the commands |
| CommandLines.SplitAtEquals | host/src/cli_frontend.cc:200-206 | A name without an equals sign is split off a token whatever the value contains |
| Outcomes.ResolvedIsEffective | host/src/cli_frontend.cc:625-650 | What a parameter resolves to: the values given, true for a flag that was given, the declared defaults only where nothing was given |
| Outcomes.BuiltIsConfigured | host/src/cli_frontend.cc:981-1035 | The configuration of a plugin: one value per parameter that feeds it and is worth anything, root options first, in declaration order, with key, kind, source and sensitivity |
| Outcomes.ArgumentsMean | host/src/cli_frontend.cc:1008-1035 | The arguments of the command: one for each of its parameters without a configuration key that is worth anything, in declaration order |
| Outcomes.SatisfiedMeans | host/src/cli_frontend.cc:981-1035 | A line is satisfied exactly if what is required was given and no effective value, given or default, is outside the declared set |
| Configurations.ValuesAllowed | host/src/cli_frontend.cc:110-125 | True exactly if unrestricted or every value is listed |
| Configurations.Ensure | host/src/cli_frontend.cc:660-672 | Finds or appends the one configuration of a plugin |
| Configurations.FillRoots | host/src/cli_frontend.cc:989-1002 | Refused exactly if a root value is not allowed; otherwise each plugin gets what its root options contribute |
| Configurations.FillLocals | host/src/cli_frontend.cc:1008-1035 | Refused exactly if a required parameter is missing or a value is not allowed; configuration keys go to the plugin, the rest to the payload, in order |
| Configurations.Build | host/src/cli_frontend.cc:981-1035 | Succeeds exactly if requirements and allowed sets are met; every configuration holds root values, then local ones |
| Configurations.AppendJsonString | host/src/cli_frontend.cc:590-615 | Byte by byte the JSON literal |
| Json.EscapeIsStandard | host/src/cli_frontend.cc:590-615 | Byte by byte the escapes of section 7 of RFC 8259 |
| Configurations.MakePayload | host/src/cli_frontend.cc:698-727 | The text is the printed object, and reads back as its members |
| Json.ObjectRoundTrip | host/src/cli_frontend.cc:590-727 | Every printed object reads back as exactly its members in order, for all byte strings |
| CliAgreement.ManifestCollects | src/host.cc:350-527 | Every manifest the catalog accepts the runtime collects from without complaint |
| CliAgreement.ValueAccepted | src/host.cc:539-610 | What a parameter resolves to is well shaped and covered by its declaration |
| CliAgreement.RootEntriesAccepted | host/src/cli_frontend.cc:989-1002 | Values from root options: distinct keys, each accepted |
| CliAgreement.LocalEntriesAccepted | host/src/cli_frontend.cc:1008-1035 | Values from the selected command: distinct keys, each accepted |
| CliAgreement.FrontendAgreesWithRuntime | src/host.cc:624-724 | For every accepted catalog and every satisfied parse, each plugin configuration the frontend builds passes the runtime validator |
| CliAgreement.FrozenKeysDistinct | src/host.cc:696-724 | A frozen snapshot has strictly increasing ordinals and no key twice |
| CliAgreement.NothingToFreeze | src/host.cc:633-636 | An empty configuration always passes |
| CliAgreement.ResolvedFaithful | host/src/cli_frontend.cc:625-650 | An argument has as many values as its parameter allows, true for a flag |
| CliAgreement.ArgumentNames | host/src/cli_catalog.cc:388-396 | Payload names do not repeat, because parameter identities do not |
| CliAgreement.MembersPreserve | host/src/cli_frontend.cc:698-727 | Reading the members back gives every argument with all its values: a boolean for a flag, an array for a repeatable parameter even of one value, a string otherwise |
| CliAgreement.PayloadRoundTrip | host/src/cli_frontend.cc:698-727 | For every accepted catalog and parse the payload decodes to exactly the arguments, in order, under distinct names, each in the shape its declaration asks for |
| CliAgreement.Activate | host/src/cli_frontend.cc:878-1035 | End to end: ok exactly for help or for a satisfied command line; then every plugin snapshot holds one value per parameter that feeds the plugin, given values before defaults, at the ordinals of their declarations in manifest order, and the payload decodes to the arguments |
| CliAgreement.FreezeAll | src/host.cc:624-724 | One snapshot per plugin, none of them refused, each exactly what the parse means for that plugin |
| CliAgreement.UnnamedIsEmpty | host/src/cli_frontend.cc:981-1035 | A plugin the surface does not mention gets no value |
| TsGateway.Gateway.Acquire | ts/src/core/lease.ts:144-196 | Error by error; success adds one lease on the published generation under a fresh handle |
| TsGateway.Gateway.Release | ts/src/core/lease.ts:198-209 | Ok exactly if the lease is the consumer's and no call waits under it; busy exactly if one does |
| TsGateway.Gateway.BeginCall | ts/src/core/lease.ts:211-248 | Takes a guard exactly if the lease is the consumer's and pins the published generation |
| TsGateway.Gateway.EndCall | ts/src/core/lease.ts:237-248 | Gives the guard back through a fresh lookup |
| TsGateway.Gateway.Revoke | ts/src/core/lease.ts:250-281 | Of a withdrawn generation: whatever happens while holders are awaited, no new lease on it comes about; ok exactly if every lease there was at the beginning has ended, and whoever was not asked had ended before; then only calls of cleaned-up consumers still wait |
| TsGateway.Gateway.AskAll | ts/src/core/lease.ts:260-273 | The holders are asked one by one; a lease that ended before its turn is passed over |
| TsGateway.Gateway.Interleave | ts/src/core/calls.ts:88-184 | Any number of steps of anybody: a withdrawn generation gains no lease, and a handle never names a second one |
| TsGateway.Gateway.RevocationEnds | ts/src/core/lease.ts:274-281 | Ok exactly if none is left; then only calls of cleaned-up consumers may still be waiting |
| TsGateway.Gateway.ReleaseAllFrom | ts/src/core/lease.ts:283-289 | Exactly the leases of one consumer vanish |
| TsGateway.AdmissionMeans | ts/src/core/calls.ts:101-150 | Each answer of the validation chain: exactly the conditions under which it is given |
| TsGateway.Gateway.FindMethod | ts/src/core/calls.ts:197-202 | Finds the first method selected, or none exactly if none is |
| TsGateway.Gateway.Admit | ts/src/core/calls.ts:101-150 | The validation chain, error by error; a failure gives the guard back |
| TsGateway.Gateway.Enter | ts/src/core/calls.ts:88-156 | A call is entered exactly if its arguments fit, the lease is the consumer's and pins the published generation, the method is listed, and the provider is there, idle and invokable; a refused call leaves no trace; an entered one takes one guard and waits under its own key |
| TsGateway.Gateway.Exit | ts/src/core/calls.ts:151-184 | The call leaves and its guard and key with it, whatever became of its lease meanwhile |
| TsGateway.NothingElseBorrowed | ts/src/core/lease.ts:250-281 | What is borrowed from a withdrawn generation was borrowed from it before |
| TsGateway.EnteredConsistent | ts/src/core/calls.ts:88-156 | Entering keeps counters equal to guards and keys unique |
| TsGateway.LeftConsistent | ts/src/core/calls.ts:151-184 | Leaving does too, even when the lease is gone |
| TsGateway.AnyInterleaving | ts/src/core/calls.ts:88-184 | Over any interleaving no two suspended calls share a provider key, and each lease counts its open guards |

## Left out

Assumptions of the engine model:

- Plugin code runs only inside host calls, and every callback ends: `RunPlugin` is a finite run, bounded by a fuel the contracts never mention.
- The administration context holds no watch and no subscription; the public facade gives it neither. Sinks without an owner are therefore absent.
- Thread checks: everything is on the control thread.
- Record addresses are not reused while referred to, and the 64-bit generation counter does not wrap. The token counter's wrap is modelled.
- Allocation failure is modelled where it is part of a contract (withdrawal, commit, watch, subscribe, publish, acquire, announce, listing the receivers of an event, describing a notice). Elsewhere, for instance when a failed unload is put back into the queue, storage is assumed.
- RackEngine.Engine.QueryInvoke: an answer without an interface is one case of a failed query, so the status it is reported under is not distinguished.
- RackEngine.Engine.UnloadOne: which of several queued unloads failed hard while a withdrawal was dispatched is not said, only that one did.
- RackEngine.Engine.DrainDeferred: says what each turn does, not that a queue holding the same identity twice is served once per entry; duplicates can occur and are allowed.
- RackEngine.Engine.RunPlugin: method arguments and results carry sizes and selectors only, not contents.
- RackEngine.Engine.Subscribe: called by plugin contexts only; the source method also accepts the administration context, which the facade never lets call it.
- RackEngine.Engine.Watch: likewise for plugin contexts only.
- RackEngine.Engine.Commit: the source also admits a starting record; its only caller makes the record active first (`src/host.cc:1612-1613`), and a published record that is not running would break the invariant, so that case is excluded.
- RackEngine.Engine.Call: a failure of the provider is passed on; after its success the status of the output writer and of the caller's receiver is any.
- RackEngine.Engine.StartPending: the status of a failed batch is not tied to the failing call.
- RackEngine.Engine.ScanMethods: rows carry identifier and name; the length limits of descriptions and schemas are left out.
- RackEngine.Engine.Announce: likewise.
- RackEngine.Engine.Stage: the duplicate check on library paths is left out.
- RackEngine.AnyRun: covers staging, starting, unloading, polling, shutdown and the services; adopt, boot, load and version of the facade are left out.
- Phase `stopped` is never observed: a record is erased in the same operation.
- Frozen configuration inside records, `entries`/`get`, `log`, library paths and the duplicate-library check of staging.
- Boot, adopt, load, dynamic libraries, directory scanning, descriptor reading, one-shot calls.
- Loops that erase from a map or a vector while walking it are map comprehensions or sequence functions here.

Assumptions of the command-line model:

- CLI11 itself: each option's results are taken to be the tokens forwarded to it, in order, and help takes precedence. The list of normalized tokens and the positional placeholders are not kept.
- Null pointers, struct sizes, reserved fields and malformed array views of the C manifest; parameter flags are booleans plus one for unknown bits.
- A configuration frozen without any manifest; the model always has one.
- Catalogs.Catalog.Add: which error status is returned is stated only for a repeated plugin; acceptance is exact.
- Catalogs.CheckKeys: acceptance is exact, the two refusal statuses are not told apart.
- Catalogs.CheckManifest: acceptance is exact, the refusal status is not stated.
- ManifestCopy.CopyText: of the refusal statuses only that of an oversized text is stated.
- ManifestCopy.CheckValues: acceptance is exact, the refusal status is not stated.
- ManifestCopy.CopyParameter: acceptance is exact, the refusal status is not stated.
- ManifestCopy.CopyCommand: acceptance is exact, the refusal status is not stated.
- ManifestCopy.CheckLocalUniqueness: the status is stated for repeated names, not for bad positions.
- ConfigFreeze.Collect: acceptance is exact, refusals are not told apart.
- ConfigFreeze.Freeze: acceptance is exact, refusals are not told apart.
- Frontend.Invocation.Normalize: what is recorded is exact; the token list handed to CLI11 is not kept.
- Descriptions, schemas and all diagnostic texts; help rendering, standard output, exit codes.
- Frontend.OrderedPositionals: a stable insertion stands for the library sort; positions are distinct in every accepted catalog.
- Json.ObjectRoundTrip: the reader knows the shapes the printer can produce (an object of true, strings and arrays of strings) with any RFC 8259 white space and every escape but surrogate pairs, which the printer never emits.

Not modelled because it would add only easy members, or is input and output:

- `ts/src/core/host.ts` (the same lifecycle spread over awaits), `caps.ts`, `events.ts`, `services.ts`, version comparison beyond ranges, the JSON size estimate of `json.ts` (sizes are parameters), `loader.ts`.
- TsGateway.Gateway.Acquire: malformed credential objects and ranges of the wrong type are not modelled; versions are three naturals.
- TsGateway.Gateway.Admit: the gateway's own generation check repeats the one of the lease table in the same synchronous step, so the two are one here.
- TsGateway.Gateway.Revoke: a revoker is any number of steps of anybody, its own answer or exception included.
- TsGateway.Gateway.Publish: generations are numbered when published instead of when created; only that they never repeat matters.
- TsPlanner.ValidateIdentities: identities are byte strings and priorities integers, so non-string identities and non-finite priorities do not occur.
- Standard and example plugins, the demo, the rack command line, the SDK wrappers.
