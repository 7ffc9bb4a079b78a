# mudflaps, verified

A Dafny model of mudflaps, the local emulator of the Fly Machines API, and proofs about it. The model is of
the part with behaviour worth proving: a discrete-event simulator (virtual clock, pending callbacks, machine
lifecycle, version history), a lease manager with lazy expiry, and a store that hands out deep copies, driven
by requests that arrive while earlier ones still have callbacks pending.

`dafny verify dfyconfig.toml` checks the whole project.

## How it is put together

The model has two layers.

**Values.** `Flaps`, `Callbacks`, `EventQueue`, `Leases` and `Emulator` give the clock, the lease table and
the whole emulator as values, with one function per operation, per scheduled callback and per request handler.
A `World` is a clock, a store and a lease table; `Emulator.Handle` takes a world and a request to a world and
a response. `Runs` builds runs from requests and time. Time passes in two ways: `Advance` drives the fake
clock; `Tick` and `FireAny` let any pending callback fire next at any moment, as goroutines on the real clock
may. `SystemLog.FakeClockRunsAreScheduled` shows every run of the first kind to be one of the second, so what is
proved for an arbitrary scheduler holds of both.

**Objects.** `Clock`, `LeaseManager`, `MachineStore`, `LifecycleAdvancer`, `Decoding` and `MachinesServer` are the
program's classes, with its fields, mutated in place: the growing list of timer objects, the map of lease
objects refreshed through their pointers, the maps of apps and machines with their nested pointers, maps and
slices (a Go pointer or map is a `Cell`, a slice an array, nil is null). Each method states the whole new
state as the value-level function of the same name applied to the old one, and `MachinesServer.Server.Drive` follows
a whole run, requests, advances and firings in any mix. So the theorems, which are about the functions, are about the
objects, on the fake clock and under an arbitrary scheduler.

A closure the advancer hands to the clock is a `Callback` value: `BootFirst`, `BootSettle`, `StopEnd`,
`SuspendEnd` or `Reap` with the machine it is aimed at. Since running one needs the store, the outer loop of
`Fake.Advance` is `LifecycleAdvancer.Advancer.Advance`; its inner scan is `Clock.Fake.Earliest`.

## What is proved

* **Effects.** `Effects`: when each request is refused and with what; and, accepted, what it makes of the machine field
  by field, what it schedules for when, what it answers, and what it leaves alone. The same for each callback. These are
  stated over the world before and after, without the functions that compute it.
* **Time.** `EventQueue.AdvanceComposes`, `Emulator.AdvanceWorldComposes` and `SystemLog.ChunkingIsInvisible`:
  cutting time into advances differently changes nothing, neither clock, timer list, firing log nor store.
  `FiringLog` and `SystemLog`: over any run, firings are strictly increasing in (deadline, registration index),
  nothing fires twice, a stopped timer never fires, nothing live is overdue. Advancing terminates because the
  callbacks left in the pending chains strictly decrease (`EventQueue.FireDecreasesWeight`).
* **Safety, under any firing order.** `Safety.ReachableIsGood`: version histories are non-empty, current,
  replaced everywhere but at their end, free of repeats; a machine and its last version disagree only while a
  client operation is in flight; `started` and `failed` tell the boot verdict of the current configuration;
  every transient machine has the callback that ends its state pending. `History.HistoryGrowsByAppend`,
  `History.GoneForGood`.
* **Progress.** `Quiescence.SettledAfterHorizon`: once the longest chain of delays has passed since the last
  request, nothing is pending and every machine rests.
* **Who decides.** `LastRequest.LatestEndingDecides`: for any delays, the last accepted request, unless a chain of
  callbacks pending from before ends later. `LastRequest.LastRequestWins` and, as an equivalence,
  `LastRequest.LastRequestWinsIff`, for equal delays. `AnyOrder.LastRequestIsCertainIff`, for any firing order.
* **Destruction.** `Destruction.DestructionIsFinal` and, for any firing order,
  `Destruction.DestructionIsFinalInAnyOrder`; `Overwriting.DestroyingHoldsIff` and
  `Overwriting.DestroyingHoldsInAnyOrderIff` say exactly when `destroying` lasts until the reap, on the fake clock
  and under an arbitrary scheduler.
* **Isolation.** `Isolation.NonInterference`: although all machines share one timer list, one machine's
  client sees a run of that machine alone, in any firing order.
* **Leases.** `EagerLeases.LazyRefinesEager`: lazy expiry is indistinguishable from dropping each lease the
  instant it expires. `LeaseExclusion.HoldsAreDisjoint`, `LeaseExclusion.EndedNonceIsPowerless`.
  `SystemLeases` lifts both to runs of the whole emulator. `Holder.UngatedIffMetadata` says exactly which requests
  a lease stops, `Holder.OnlyTheHolderChanges` and `Holder.OnlyTheHolderSetsTheCourse` what it protects over whole
  runs; and `Course.OnlyPendingCallbacksMoveIt` that, in any firing order, the machine is, metadata and update time
  apart, what it would be without any request. `Holder.NonceShownIffRead` says who is told the nonce, and
  `Outliving.RemovalLeavesLeaseIff` when a lease outlives its machine.
* **Waits.** `Waiting`: honest answers, no timeout while the target holds, termination, and no success on a
  superseded instance id. `Deploying.DeployIsReported`: after a create, start, restart or update whose boot decides
  where the machine ends, a wait for `started` succeeds exactly if the configuration boots, and
  `Deploying.DeployJudgesWhatWasAsked`: if the image asked for is not the sentinel. `Waiting.AnswerIff`: which answer a
  wait gives. `Timeouts`: what any text gives for a timeout, 64-bit wrap-around included.
* **The heap.** Every machine that leaves the store is a deep copy, and so is one that create puts in; what the
  store shows is a map of values, whatever is done to the copies (`MachineStore.GetOverwriteGet`).
  `Cloning.CopyIsExactIff` says when a copy equals its source. `MachinesServer.Server.Drive`: over any run, in any
  firing order, the live objects are in the state the model says.
* **The exceptions are met.** `Witnesses` reaches each of them by a run from a new server.

## Where the code and its documentation part

The model follows the code. The proofs locate these differences:

* The terminal check keeps requests, not callbacks, from moving a machine out of `destroying`
  (`internal/server/server.go:798-800`); the type declarations and `docs/fidelity.md` draw no edge out of it but
  the reap. A callback pending from before the delete overwrites it
  (`Witnesses.StopOverwritesDestroying`), exactly when it is due sooner than every reap
  (`Overwriting.DestroyingHoldsIff`). The reap itself is unconditional, so destruction is final all the same.
* With equal delays, a stop or suspend accepted before the first boot step has fired is later overridden by the
  boot's own settle (`LastRequest.LastRequestWinsIff`, `Witnesses.StopDuringBootIsOverridden`); with any delays,
  exactly if the boot's chain is the last to end and outlasts it (`LastRequest.LatestEndingDecides`). Under an
  arbitrary scheduler a request is certain of its effect exactly if all that was pending leads to the same place
  (`AnyOrder.LastRequestIsCertainIff`).
* "Callers receive deep copies" (`internal/store/store.go:1-4`) holds of the sharing; of the values it holds up
  to one detail: copying an empty but non-nil handler list gives nil. No client can tell, since both are omitted
  from the encoding (`Cloning.CopyIsExactIff`, `Cloning.CopyIsFaithful`, `Witnesses.CopyLosesEmptyHandlers`).
* The clamp of a wait's timeout to [1s, 60s] is kept for every text, and the value is the documented one always
  while the seconds fit in 64-bit nanoseconds, and beyond that only by chance of the remainder: 9223372037 seconds
  ask for the longest wait and get the shortest (`Timeouts.ClampBreaksPromise`, `Timeouts.ClampKeepsPromiseIff`).
* A lease is described as exclusive rights to mutate a machine (`internal/lease/lease.go:1-4`). Among requests about
  the machine that is so but for metadata, which anyone may write or delete (`Holder.UngatedIffMetadata`); and
  deleting the app takes machine and lease away whoever asks (`Holder.AppDeletionIgnoresLeases`). Both happen in
  `Witnesses.LeaseHeldByAnother`.
* The nonce is called the holder's secret where a conflict leaves it out (`internal/server/server.go:717-720`), but
  reading the lease asks for no nonce and shows it (`internal/server/server.go:675-686`): of the requests about a leased
  machine that lack the nonce, that one is told it and no other (`Holder.NonceShownIffRead`), and whoever has read it
  passes for the holder (`Witnesses.NonceReadFromTheLease`).
* Leases are cleared when a machine is destroyed (`internal/lease/lease.go:133-134`) or its app deleted, lest they leak
  (`internal/server/server.go:252-253`). But a destroy clears at the request, not at the reap, and acquiring does not
  look at the state: a lease acquired in between stays in force until it expires, without its machine
  (`Outliving.RemovalLeavesLeaseIff`, `Outliving.OnlyIfAcquiredSince`, `Witnesses.LeaseOutlivesMachine`).
* A refresh is said to extend a lease (`internal/lease/lease.go:83`). It shortens it exactly when more time is left
  than is asked for (`SystemLeases.RefreshShortensIff`, `Witnesses.RefreshShortens`).

## Assumptions

* Minted ids and nonces are new, non-empty and distinct, and machine ids hold no slash
  (`Runs.FreshRequest`): the random generators are parameters of the requests.
* Delays and advances are not negative where timing is at stake; each lemma says so.
* One request, or one callback, is one atomic step.

## Model

| member | source | states |
|---|---|---|
| Flaps.Repository | internal/flaps/types.go:31-56 | the part of an image reference before its first tag or digest mark: a mark-free prefix that ends at a mark or at the end |
| Flaps.PrefixTestsCutAtMark | internal/flaps/types.go:52-55 | for any mark-free name, the equality test and the two prefix tests together say that the reference cut at its first mark is that name |
| Flaps.FailsToBootIffRepositoryIsSentinel | internal/flaps/types.go:44-56 | a configuration fails to boot if and only if the repository part of its image is the sentinel |
| EventQueue.NextIsFirst | internal/clock/clock.go:98-110 | the timer selected precedes every other due timer in (deadline, registration index); when none is selected none is due |
| EventQueue.NextIsUnique | internal/clock/clock.go:98-110 | that order determines the selection |
| EventQueue.FireDecreasesWeight | internal/clock/clock.go:98-117 | each firing leaves exactly one callback fewer in the chains still to run, whatever it registers: the loop terminates |
| EventQueue.AdvanceIgnoresNow | internal/clock/clock.go:95-120 | only deadlines drive an advance, not the reading it starts from |
| EventQueue.NextForFartherTarget | internal/clock/clock.go:98-110 | a timer selected for a nearer target is selected for a farther one |
| EventQueue.AdvanceComposes | internal/clock/clock.go:95-120 | advancing to t1 and then t2 gives the clock, timer list and firing log of advancing to t2 at once |
| FiringLog.GoodAfterExec | internal/clock/clock.go:59-120 | AfterFunc, Stop and Advance each keep the log strictly ordered, equal to the set of fired timers, before everything live, and nothing live overdue |
| FiringLog.AdvanceEvolves | internal/clock/clock.go:95-120 | an advance only appends timers and only moves live ones to fired; deadlines and callbacks never change |
| FiringLog.AdvanceCompletes | internal/clock/clock.go:98-118 | an advance ends with the clock at its target and nothing live due |
| FiringLog.RunIsOrdered | internal/clock/clock.go:42-120 | over any run of registrations, stops and advances the log only grows, stays in strict firing order, and fired or stopped timers keep that fate |
| FiringLog.FiresAtMostOnce | internal/clock/clock.go:84-120 | from a new clock, of any two firings the earlier has the smaller (deadline, index) and they are different timers |
| FiringLog.StoppedNeverFires | internal/clock/clock.go:59-65 | a live timer that is stopped appears in no later firing log |
| EagerLeases.CallRefines | internal/lease/lease.go:49-153 | each operation answers as on the table of leases in force, and leaves the same leases in force |
| EagerLeases.LazyRefinesEager | internal/lease/lease.go:49-153 | over any interleaving of operations and clock movement the lazy manager gives exactly the replies of one that drops each lease the instant it expires |
| LeaseExclusion.GoodAfterStep | internal/lease/lease.go:49-139 | one operation or clock tick keeps: holds of a key disjoint, nonces distinct, the open holds exactly the leases in force |
| LeaseExclusion.HoldsAreDisjoint | internal/lease/lease.go:49-139 | over any run the granted hold intervals of each key, ended by expiry, release or clear, are pairwise disjoint |
| LeaseExclusion.EndedStaysEnded | internal/lease/lease.go:83-115 | a hold that has ended keeps its interval for the rest of any run |
| LeaseExclusion.EndedNonceIsPowerless | internal/lease/lease.go:83-115 | once its hold has ended, no refresh or release presenting the nonce succeeds, on any key, after any further run |
| Cloning.ClonedTwice | internal/store/store.go:101-111 | a copy of a copy is that copy: what create returns equals what it stored |
| Cloning.CopyIsExactIff | internal/store/store.go:184-240 | a copy equals its source if and only if no handler list is present but empty |
| Witnesses.CopyLosesEmptyHandlers | internal/store/store.go:226-240 | a state reached from a new server, by an update with an empty handler list, in which the stored machine differs from its copies |
| Cloning.CopyIsFaithful | internal/store/store.go:184-240 | every service of a copy encodes as its source does, with protocol, internal port, ports and handlers, and everything outside the services is equal |
| Cloning.CopyReadsAs | internal/store/store.go:184-240 | a copied machine is equal in every field but the configuration's services, and those encode as the source's do |
| Emulator.AdvanceReplaysLog | internal/clock/clock.go:95-120 | an advance of the whole emulator moves the clock as the clock alone would, and the store replays the firing log; leases are untouched |
| Emulator.AdvanceWorldComposes | internal/clock/clock.go:95-120 | advancing the emulator to t1 and then t2 is advancing it to t2: same clock, timers, store and leases |
| Runs.AdvanceIsASchedule | internal/clock/clock.go:42-46 | every advance of the fake clock is a sequence of choices an arbitrary scheduler may make |
| Effects.GatedIsRefusedIff | internal/server/server.go:788-835 | an update, delete, transition or cordon is refused exactly if a lease is in force under another nonce, or else the app or machine is missing, or else, but for a delete, the machine is being destroyed; the answer says which; then no machine, timer or lease in force changes; an expired lease met on the way is dropped |
| Effects.UpdateEffect | internal/server/server.go:345-389 | after an accepted update the machine has the configuration and name of the request, if it has one, and else its own, the new instance, appended to its history as replacing with the one before replaced, and the present for update time; every other field, machine, app and lease stays; a settle is due after the update delay; the reply reads as the machine stored |
| Effects.CreateEffect | internal/server/server.go:269-311 | a created machine has the id, name, region, configuration and instance of the request, defaults where it gives none, one version, the present for both times, and is created or creating; it is what the reply shows; unless launch is skipped its boot is due after the create delay; in an unknown app the request is refused |
| Effects.ActEffect | internal/server/server.go:409-561 | an accepted start, stop, restart or suspend enters starting, stopping, restarting or suspending, changes nothing else but the update time, reports the state left, and has the ending of its kind due after the delay of its kind |
| Effects.DeleteEffect | internal/server/server.go:391-407 | an accepted delete enters destroying, changes nothing else of the machine but the update time, drops its lease and no other, and has the reap due after the destroy delay |
| Effects.CordonEffect | internal/server/server.go:456-473 | an accepted cordon or uncordon sets the flag to what is asked for, and nothing else but the update time |
| Effects.MetadataEffect | internal/server/server.go:633-671 | on an existing machine the one key reads as written, or not at all, all other keys and all else but the update time as before, whether or not there was a configuration or metadata |
| Effects.CreateAppEffect | internal/server/server.go:216-239 | an app needs a name and an organization and a name not taken; then it is there, deployed, of that organization and without machines, and the reply shows it |
| Effects.DeleteAppEffect | internal/server/server.go:250-265 | the app is gone with its machines and their leases; every other app and lease stays; an unknown app is an error |
| Effects.AcquireEffect | internal/server/server.go:688-732 | without a nonce: the lease in force is reported; if there is none, one under the minted nonce for the time asked for is granted and in force until exactly then, with the description given |
| Effects.RefreshEffect | internal/server/server.go:703-711 | with a nonce: the lease in force under it ends after the time asked for, counted from now, and is otherwise the same; no lease, or another nonce, is refused |
| Effects.ReleaseAndGetEffect | internal/server/server.go:675-750 | a release under the nonce drops the lease, reading shows it; no lease, or another nonce, is refused; no other key changes |
| Effects.LeaseNeedsMachine | internal/server/server.go:675-750 | the lease endpoints answer for a machine that is not there with what is missing, and change nothing |
| Effects.FiringEffect | internal/machine/machine.go:60-164 | a callback that fires puts its machine, and its last version, if it is there, in starting, stopped, suspended, or in failed if the image's repository is the sentinel and else in started, or removes it; nothing else changes; only a boot's first step schedules another, its settle after the start delay |
| Effects.NewServerOptions | internal/server/server.go:107-136 | delays none of which is set are all 75 milliseconds; once one is set all are as given; a lease time that is not positive is 30 seconds |
| SystemLog.GoodAfterSystemRun | internal/server/server.go:250-752 | over any run of requests and advances the emulator's firing log stays in strict order, each timer at most once, nothing overdue |
| SystemLog.SystemFiresInOrder | internal/clock/clock.go:84-120 | from a new server, of any two firings the earlier has the smaller (deadline, registration index) |
| SystemLog.NeverOverdue | internal/clock/clock.go:95-120 | in every state reached on the fake clock no pending callback's deadline has passed |
| SystemLog.FakeClockRunsAreScheduled | internal/clock/clock.go:42-46 | every run on the fake clock is, firing by firing, a run an arbitrary scheduler could have made |
| SystemLog.ChunkingIsInvisible | internal/clock/clock.go:92-120 | any way of cutting a stretch of time into advances ends in the same state, with the same firing log, as one advance |
| Invariants.MutateKeepsMachineOK | internal/server/server.go:362-383 | each closure run on a machine keeps its version history, its agreement with its last version and its boot verdict |
| Safety.GoodAfterCreateMachine | internal/server/server.go:269-311 | creating a machine keeps the invariant; an unlaunched machine rests in created, a launched one has its boot pending |
| Safety.GoodAfterUpdateMachine | internal/server/server.go:345-389 | an update, rejected or accepted, keeps the invariant |
| Safety.GoodAfterDeleteMachine | internal/server/server.go:391-407 | a delete keeps the invariant |
| Safety.GoodAfterAct | internal/server/server.go:541-561 | start, stop, restart and suspend keep the invariant |
| Safety.GoodAfterMetadata | internal/server/server.go:633-671 | writing metadata keeps the invariant, the boot verdict included, even where it makes a configuration |
| Safety.TargetGood | internal/machine/machine.go:132-164 | whichever stale callback fires, its machine ends at rest in agreement and with a true verdict, or starting with a settle pending |
| Safety.GoodAfterFire | internal/machine/machine.go:60-164 | any pending callback may fire next, at any time, and the invariant holds for every machine |
| Safety.GoodAfterStep | internal/server/server.go:250-752 | every request, advance, tick and arbitrary firing keeps the invariant |
| Safety.ReachableIsGood | internal/machine/machine.go:60-164 | in every reachable state, under any firing order: histories sound, machine and version states agree outside client operations, started and failed tell the current verdict, every transient machine has its way out pending |
| Safety.NothingPendingMeansRest | internal/machine/machine.go:125-164 | once nothing is pending, every machine rests in the state of its last version, with a true boot verdict |
| History.RequestOnMachine | internal/server/server.go:345-671 | a request changes no machine but its subject, and to that it applies all of its mutations or none; only deleting the app takes a machine away |
| History.GoneForGood | internal/store/store.go:139-152 | a machine that is gone never reappears, whatever is requested, app re-creation included, and whatever fires |
| History.HistoryGrowsByAppend | internal/server/server.go:363-383 | over any run a surviving machine's id list only grows by append, and superseded entries never change again |
| History.SupersededForGood | internal/server/server.go:356-378 | after an accepted update the old instance id is never current again |
| Quiescence.Horizon | internal/machine/machine.go:20-28 | the horizon is one of the chains of delays, create and start counting as one, and none is longer |
| Quiescence.PendingWithinHorizon | internal/machine/machine.go:60-123 | over any run on the fake clock no chain of callbacks reaches further than the longest delay chain past the present |
| Quiescence.EmptyAfterHorizon | internal/machine/machine.go:60-123 | advancing by that much past the last request leaves no callback pending |
| Quiescence.SettledAfterHorizon | internal/machine/machine.go:60-147 | ... and every surviving machine created, started, stopped, suspended or failed |
| Destruction.RequestOnClock | internal/server/server.go:250-752 | a request touches the clock only by registering the one callback its kind calls for |
| Destruction.ReapedByDeadline | internal/machine/machine.go:103-113 | in any firing order a machine with a reap pending is gone or still has one pending, due no later; on the fake clock the first advance that reaches the deadline has removed it, whatever happens before |
| Destruction.DestructionIsFinal | internal/server/server.go:391-407 | after a delete accepted at T the machine is absent from every later state whose clock has reached T + Destroy (with Destroy zero: after one advance), through stale timers, repeated deletes, app deletion and re-creation |
| Destruction.DestructionIsFinalInAnyOrder | internal/server/server.go:391-407 | in any firing order, after a delete accepted at T an existing machine has a reap pending, due by T + Destroy; once it has none the machine is gone, and stays gone over every further run |
| Destruction.DestroyingIsTerminal | internal/server/server.go:798-811 | a machine being destroyed stays so through every request, and only deleting its app removes it before the reap |
| Destruction.DestroyingInAnyOrder | internal/machine/machine.go:149-164 | with nothing but reaps pending at the delete, the machine is destroying in every later state in which it exists, under any firing order |
| Destruction.DestroyingUntilReaped | internal/server/server.go:391-407 | with nothing else pending at a delete accepted at T, the machine is destroying in every later state in which it exists, under any firing order; on the fake clock it exists until T + Destroy unless its app goes |
| Overwriting.DestroyingHoldsIff | internal/machine/machine.go:132-164 | after a delete accepted at T the machine is destroying in every later fake-clock state in which it exists if and only if each of its other callbacks pending at T was due no sooner than T + Destroy or some reap pending already |
| Overwriting.DestroyingHoldsInAnyOrderIff | internal/machine/machine.go:132-164 | ... and in every later state under any firing order if and only if no callback of its but reaps was pending |
| Witnesses.StopOverwritesDestroying | internal/machine/machine.go:81-86 | a state reached from a new server, by a stop and an advance of a millisecond, in which a delete is accepted and that condition fails |
| Fates.LastIsLast | internal/clock/clock.go:99-107 | of a machine's pending callbacks, the one found is the one whose chain ends last: by end, then registration, a boot's second step after all others due with it |
| Fates.FateAfterAdvance | internal/clock/clock.go:98-117 | for any delays, where a machine will end can be read off the timer list, and the passage of time does not change it |
| LastRequest.RefusedChangesNothing | internal/server/server.go:788-835 | a refused request, for a lease, a terminal state, a missing machine or a bad body, leaves store and clock as they were |
| LastRequest.FateAfterCourse | internal/server/server.go:541-561 | an accepted start, stop, restart, suspend or update makes its own target the machine's fate, unless a reap is pending or the pending chain that ends last outlasts it |
| LastRequest.FateIsFulfilled | internal/machine/machine.go:60-147 | for any delays a machine's fate is fulfilled by the first advance that reaches the end of its pending chains, whatever refused or neutral requests come between |
| LastRequest.LatestEndingDecides | internal/machine/machine.go:60-147 | for any delays, once all has run out after the last accepted request: gone exactly if a destroy was pending, else in its target, unless the chain pending from before that ends last outlasts it; then where that leads |
| LastRequest.NothingOutlastsIt | internal/machine/machine.go:60-147 | for any delays the last accepted request wins if nothing of the machine's pending from before is a reap or outlasts it |
| AnyOrder.LastRequestIsCertainIff | internal/machine/machine.go:60-147 | in any firing order, with only refused or neutral requests since, the machine is certain to be in the accepted request's target once nothing of it is pending if and only if every callback pending at the request leads to the same place |
| LastRequest.LastRequestWins | internal/machine/machine.go:30-41 | with equal delays and no destroy or first boot step pending, one delay after its last accepted request a machine is in its target, boot success judged on the final configuration, refused requests not counting |
| LastRequest.LastRequestWinsIff | internal/machine/machine.go:60-70 | ... and exactly when it is: no destroy pending, and no stop or suspend against a pending first boot step |
| Witnesses.StopDuringBootIsOverridden | internal/machine/machine.go:60-70 | a state reached from a new server in which a stop is accepted and two delays later the machine is not stopped |
| Isolation.NextOfMine | internal/clock/clock.go:98-107 | if the shared scan selects a timer of one machine, that machine's own share of the list would select the same one |
| Isolation.CoreAfterAdvance | internal/clock/clock.go:95-120 | an advance of the shared clock, seen by one machine, is the advance of its own timers alone |
| Isolation.LeaseKeysAreDistinct | internal/server/server.go:841 | machines with slash-free ids never share a lease key, whatever their app names |
| Isolation.AcceptedIsChange | internal/server/server.go:345-473 | each gated handler is: lease check, terminal check (but for delete), lookup, then its mutation, the time stamp and the one registration |
| Isolation.SameAfterConcern | internal/server/server.go:216-752 | a request about a machine is answered, and acts, alike in any two worlds that machine cannot tell apart |
| Isolation.UnconcernedIsInvisible | internal/server/server.go:216-752 | a request about anything else changes nothing that machine's client can see |
| Isolation.NonInterference | internal/server/server.go:216-752 | any run, in any firing order, projected onto one machine, is a run of that machine alone, its requests, its own callbacks by rank and the passage of time: same machine, history, lease, pending callbacks and answers |
| Isolation.NonInterferenceOnFakeClock | internal/clock/clock.go:95-120 | on the fake clock that lone run is the run with the requests about others dropped |
| Holder.NonHolderIsPowerless | internal/server/server.go:788-796 | while a lease is in force a request without its nonce (app deletion apart) leaves lease and pending callbacks alone, and of the machine changes at most metadata and the update time |
| Holder.UngatedIffMetadata | docs/fidelity.md:70-82 | with a lease in force on an existing machine, a request about it without the nonce, the lease endpoints apart, gets past the gate if and only if it writes or deletes metadata; the others are answered as leased and change neither store nor clock |
| Holder.LeaseEndpointsRefuse | internal/server/server.go:688-750 | without the nonce, acquiring and releasing are refused, the refusal telling at most holder and expiry, and change nothing |
| Holder.GetLeaseShowsIt | internal/server/server.go:675-686 | reading the lease takes no nonce, answers with nonce, holder and expiry, and changes nothing |
| Holder.NonceShownIffRead | internal/server/server.go:675-720 | with a lease in force on an existing machine, a request about it without the nonce is told the nonce if and only if it reads the lease |
| Witnesses.NonceReadFromTheLease | internal/server/server.go:675-686 | a state reached from a new server in which a stop without the nonce is refused, reading the lease shows the nonce, and a stop with it is accepted |
| Holder.AppDeletionIgnoresLeases | internal/server/server.go:250-265 | deleting the app removes machine and lease, whoever asks and whatever lease is in force |
| Witnesses.LeaseHeldByAnother | internal/server/server.go:618-619 | a state reached from a new server in which, without the held nonce, a stop is refused, metadata is written and the app is deleted |
| Holder.OnlyTheHolderChanges | internal/server/server.go:788-796 | over any run without the held nonce and without app deletion, until expiry, the lease stays in force and name, region, cordon flag, instance id, version ids and configuration apart from metadata stay as they are |
| Holder.OnlyTheHolderSetsTheCourse | internal/server/server.go:788-796 | over such a run on the fake clock, where the machine will end, read off state and pending callbacks, stays what it was |
| Course.OnlyPendingCallbacksMoveIt | internal/server/server.go:788-796 | over such a run in any firing order the machine, state and history included, metadata and update time apart, and its pending callbacks are those of the run with all requests dropped: its state changes only as callbacks pending before play out |
| Outliving.RemovalLeavesLeaseIff | internal/server/server.go:250-265 | the step that takes a machine away leaves a lease in force on it if and only if a reap does it, not the deletion of the app, and the lease in force before lasts beyond it |
| Outliving.OnlyIfAcquiredSince | internal/server/server.go:391-407 | after an accepted delete, in any firing order, a lease on the machine, there or gone, was acquired since |
| Witnesses.LeaseOutlivesMachine | internal/lease/lease.go:133-139 | a state reached from a new server, by a delete, an acquire and an advance, in which the machine is gone and its lease in force |
| SystemLeases.StepIsLeaseRun | internal/server/server.go:250-811 | what any request, advance or firing does to the lease table is a run of the lease manager's operations |
| SystemLeases.RunTracks | internal/lease/lease.go:1-4 | over any run of the emulator, under any firing order, the open holds are exactly the leases in force, holds of a key are disjoint, and a hold that has ended stays ended |
| SystemLeases.SystemHoldsAreDisjoint | internal/lease/lease.go:1-4 | from a new server no two granted holds of one lease key ever overlap |
| SystemLeases.EndedHolderIsRefused | internal/server/server.go:688-750 | once a hold has ended no lease request presenting its nonce is granted and no release with it accepted, after any further run |
| SystemLeases.EndedHolderIsFenced | internal/server/server.go:788-796 | once a hold has ended, after any further run, its nonce is stopped at a machine's gate if and only if some lease is in force there |
| SystemLeases.RefreshShortensIff | internal/lease/lease.go:83-100 | a granted refresh brings the end forward if and only if more time is left than is asked for, or than thirty seconds if none is asked for |
| SystemLeases.RefreshRequestShortensIff | internal/server/server.go:697-711 | so it is at the endpoint, with the time as Timeouts.GrantedFor says |
| Witnesses.RefreshShortens | internal/lease/lease.go:98 | a state reached from a new server in which a refresh for one second ends after one second a lease that had thirty to go |
| Timeouts.ClampInRange | internal/server/server.go:854-874 | for every text, wrap-around included, the timeout lies between one second and sixty |
| Timeouts.AtoiOfItoa | internal/server/server.go:861-864 | the decimal text of a 64-bit number parses back to it |
| Timeouts.NumeralIff | internal/server/server.go:861-864 | a text is a numeral, zeros and a decimal text after an optional sign, if and only if it is digits, one at least, after an optional sign |
| Timeouts.AtoiIff | internal/server/server.go:861-864 | exactly the numerals whose value fits 64 bits are parsed, and to that value |
| Timeouts.ClampOfText | internal/server/server.go:854-874 | no text gives a minute; text that is no number, or a number out of range, a second; any other numeral what its decimal text gives |
| Timeouts.ClampKeepsPromiseIff | internal/server/server.go:854-874 | on its decimal text the timeout is the requested seconds clamped to [1, 60] whenever they fit 64-bit nanoseconds; beyond, exactly by the remainder of the nanoseconds modulo 2^64: from a minute up to 2^63 for a count too large; at most a second, or 2^63 and more, for one too small |
| Timeouts.ClampBreaksPromise | internal/server/server.go:865-869 | the text of every count from 9223372037 to 18446744074 should give the longest wait and gives the shortest |
| Timeouts.ClampBreaksPromiseOnText | internal/server/server.go:865-869 | so does the parameter "9223372037" |
| Timeouts.LeaseTtlHonouredIff | internal/server/server.go:697-700 | the time a lease is granted for is what a signed 64-bit register keeps of the nanoseconds asked for if that is positive, else thirty seconds, and the server's lease time if none is asked for; it is as asked if and only if the nanoseconds fit |
| Waiting.AnswersAreHonest | internal/server/server.go:586-607 | OK comes only from a poll that matches; a timeout only from a poll past the deadline, no poll up to it having matched |
| Waiting.AnswerIff | internal/server/server.go:586-613 | the first poll that does not let the wait go on answers: OK if it matches, its own lookup error if it found nothing, a timeout if it only came past the deadline; without one there is no answer |
| Waiting.WordsMeanStates | internal/flaps/types.go:13-75 | each of the fifteen words matches a machine in the state of that name and in no other |
| Waiting.MatchesByWordAndInstance | internal/server/server.go:589-603 | any one of the words asked for is enough, an instance id only narrows, destroyed is matched by a machine that is gone, a missing app by nothing |
| Waiting.HeldTargetNeverTimesOut | internal/server/server.go:586-607 | a target held from some moment not after the deadline is never answered with a timeout |
| Waiting.HeldTargetIsReached | internal/server/server.go:586-607 | ... and if the machine is there until then, the first poll from that moment on answers OK |
| Waiting.WaitTerminates | internal/server/server.go:586-613 | when every poll finds the clock moved on by some tick, the loop ends within the timeout divided by it, plus two polls |
| Waiting.SupersededWaitFails | internal/server/server.go:600-603 | a wait for the instance id an update has superseded never succeeds, except for destroyed once the machine is gone |
| Waiting.DestroyedMeansGone | internal/server/server.go:589-596 | in a reachable state a poll for destroyed matches only a machine that is gone |
| Waiting.StartedIsTruthful | internal/machine/machine.go:125-131 | in a reachable state a poll for started matches only a machine whose current configuration boots |
| Deploying.DeployIsReported | docs/fidelity.md:56-68 | after an accepted create, start, restart or update, with no reap pending and the last chain to end a boot, a wait for started, for any or for the new instance, polling past the end of all pending with the deadline still later, succeeds if and only if the configuration boots; if not, polling past the deadline gives a timeout |
| Deploying.StoredAsAsked | internal/server/server.go:269-389 | the configuration stored by an accepted create, update or transition boots if and only if the one asked for does: the request's, or the machine's own where it gives none |
| Deploying.DeployJudgesWhatWasAsked | docs/fidelity.md:56-68 | so such a wait for started, for any or for the new instance, succeeds if and only if the image asked for is not the unpullable one, tagged or not |
| Clock.FakeTimer.Stop | internal/clock/clock.go:59-65 | true exactly when the timer was live, which it then is no longer |
| Clock.Fake.constructor | internal/clock/clock.go:67-74 | a clock at the given time, or at the fixed epoch for a zero one, without timers |
| Clock.Fake.AfterFunc | internal/clock/clock.go:84-90 | appends one fresh timer due after the delay; the others are untouched |
| Clock.Fake.Earliest | internal/clock/clock.go:99-107 | the loop over the timer objects finds the selection of EventQueue.Next |
| Clock.Fake.BeginFire | internal/clock/clock.go:111-113 | marks the one timer fired and moves the clock to its deadline |
| Clock.Fake.StopTimer | internal/clock/clock.go:59-65 | stops the one timer in the list, and no other |
| LeaseManager.CopyLease | internal/lease/lease.go:155-158 | callers get the lease's value |
| LeaseManager.Manager.Active | internal/lease/lease.go:141-153 | the live lease object, an expired one being deleted on sight; nothing else changes |
| LeaseManager.Manager.Acquire | internal/lease/lease.go:49-69 | table and reply are those of the specification: granted anew, or the holder's lease |
| LeaseManager.Manager.Get | internal/lease/lease.go:71-81 | table and reply are those of the specification |
| LeaseManager.Manager.Refresh | internal/lease/lease.go:83-100 | table and reply are those of the specification; the lease is changed through its pointer and no other with it |
| LeaseManager.Manager.Release | internal/lease/lease.go:102-115 | table and reply are those of the specification |
| LeaseManager.Manager.Check | internal/lease/lease.go:117-131 | conflict exactly when a lease is in force under another nonce |
| LeaseManager.Manager.Clear | internal/lease/lease.go:133-139 | the key's lease is gone, whatever its nonce |
| MachineStore.CloneStringMap | internal/store/store.go:242-251 | a fresh map of equal contents, filled key by key in any order; nil for nil |
| MachineStore.ClonePorts | internal/store/store.go:226-240 | fresh ports with fresh handler lists, equal to the originals but for empty lists turned nil |
| MachineStore.CloneServices | internal/store/store.go:200-207 | fresh services, down to the handler lists |
| MachineStore.CloneConfig | internal/store/store.go:188-213 | a fresh configuration, down to every object it reaches, of the value Emulator.ClonedConfig gives |
| MachineStore.CloneImageReference | internal/store/store.go:215-219 | a fresh image reference with fresh labels, of equal value |
| MachineStore.CloneMachine | internal/store/store.go:184-224 | a machine every object of which is fresh, of the value Emulator.Cloned gives |
| MachineStore.MachineConfig.PutMetadata | internal/server/server.go:645-648 | sets one metadata key through the pointer, making the map when it is nil |
| MachineStore.MachineConfig.DropMetadata | internal/server/server.go:660-664 | removes one metadata key; a nil map stays nil |
| MachineStore.MachineRecord.SettleBoot | internal/machine/machine.go:133-142 | state and last version become started or failed as the configuration at hand decides |
| MachineStore.MachineRecord.Churn | internal/server/server.go:363-383 | the version churn on the live machine: new id appended, old entry replaced, the request's configuration adopted, the very object, if it has one |
| MachineStore.MachineRecord.Apply | internal/store/store.go:154-169 | every closure, run on the live machine, does what Emulator.Mutate says, and to this machine only |
| MachineStore.Store.OthersIntact | internal/store/store.go:154-169 | a change confined to one app's objects leaves the store intact and every other app's value as it was |
| MachineStore.GetOverwriteGet | internal/store/store.go:1-4 | get a machine, write anything to whatever the copy reaches, get it again: the store is unchanged and the machine the same |
| MachineStore.CreateOverwriteGet | internal/store/store.go:99-111 | whatever is then written to the machine handed to create and to the copy handed back, the stored machine is what was created |
| MachineStore.Store.CreateApp | internal/store/store.go:45-64 | adds an empty app, deployed unless it comes with a status, or refuses a taken name and changes nothing |
| MachineStore.Store.DeleteApp | internal/store/store.go:88-97 | the app is gone with all of its machines; an unknown one is an error |
| MachineStore.Store.Find | internal/store/store.go:171-182 | the live machine under a key, or which of app and machine is missing |
| MachineStore.Store.GetMachine | internal/store/store.go:113-122 | a fresh copy, or the error of the lookup |
| MachineStore.Store.CreateMachine | internal/store/store.go:99-111 | stores one private copy and returns another, sharing nothing with the store or the caller |
| MachineStore.Store.DeleteMachine | internal/store/store.go:139-152 | the one machine is gone, the others as they were; errors as in the lookup |
| MachineStore.Store.UpdateMachine | internal/store/store.go:154-169 | the closure is applied to the one live machine and a fresh copy of the result returned, or the error it ends with; a missing machine is an error and nothing changes |
| MachineStore.Store.IdsAreKeys | internal/store/store.go:99-111 | every machine is stored under its own id |
| MachineStore.Store.ListMachines | internal/store/store.go:124-137 | fresh copies of exactly the app's machines, each once |
| MachineStore.Store.ListMachinesByOrg | internal/store/store.go:518-537 | fresh copies of exactly the machines of the org's apps, each once |
| LifecycleAdvancer.Advancer.Create | internal/machine/machine.go:60-70 | registers the first boot step after the create delay |
| LifecycleAdvancer.Advancer.Schedules | internal/machine/machine.go:72-101 | start, stop, restart and suspend register their ending after their own delay |
| LifecycleAdvancer.Advancer.Destroy | internal/machine/machine.go:103-113 | registers the reap after the destroy delay |
| LifecycleAdvancer.Advancer.Update | internal/machine/machine.go:115-123 | registers a settle after the update delay |
| LifecycleAdvancer.Advancer.Settle | internal/machine/machine.go:125-147 | the boot verdict is written to machine and last version, judged on the configuration of that moment |
| LifecycleAdvancer.Advancer.Set | internal/machine/machine.go:149-164 | the state is written to machine and last version; a missing machine is no error |
| LifecycleAdvancer.Advancer.Run | internal/machine/machine.go:60-123 | each closure does to the store, and registers on the clock, what Emulator.RunCallback and Callbacks.Follow say |
| LifecycleAdvancer.Advancer.FireAny | internal/clock/clock.go:35-37 | any live timer may fire at any reading of the clock: queue and store become what EventQueue.Fire and Emulator.RunCallback say |
| LifecycleAdvancer.Advancer.Advance | internal/clock/clock.go:92-120 | the loop over the live objects: the clock is that of EventQueue.AdvanceTo, the store has replayed the firing log |
| MachinesServer.Server.constructor | internal/server/server.go:107-136 | an empty emulator on the given clock, zero delays and a non-positive lease time replaced by the defaults |
| MachinesServer.Server.RejectIfLeased | internal/server/server.go:788-796 | rejects exactly when the manager reports a conflict; the check drops an expired lease |
| MachinesServer.Server.RejectIfTerminal | internal/server/server.go:798-811 | reports the state exactly when the machine exists and is destroying or destroyed |
| MachinesServer.Server.TouchMachine | internal/server/server.go:813-819 | stamps the one machine with the clock's reading |
| MachinesServer.Server.CreateApp | internal/server/server.go:216-239 | world and reply are Emulator.HandleCreateApp's |
| MachinesServer.Server.DeleteApp | internal/server/server.go:250-265 | world and reply are Emulator.HandleDeleteApp's: exactly the leases of the app's machines are cleared |
| MachinesServer.Server.ClearLeasesOf | internal/server/server.go:252-258 | the loop over the listing clears the lease of each of the app's machines and no other |
| MachinesServer.Server.CreateMachine | internal/server/server.go:269-311 | world and reply are Emulator.HandleCreateMachine's; the machine in the reply is out of the server's reach |
| MachinesServer.Server.UpdateMachine | internal/server/server.go:345-389 | world and reply are Emulator.HandleUpdateMachine's; the request's configuration is adopted, the machine in the reply is out of reach |
| MachinesServer.Server.DeleteMachine | internal/server/server.go:391-407 | world and reply are Emulator.HandleDeleteMachine's |
| MachinesServer.Server.Transition | internal/server/server.go:541-561 | world and reply are Emulator.HandleAct's, the state reported being the one left |
| MachinesServer.Server.SetCordon | internal/server/server.go:456-473 | world and reply are Emulator.HandleSetCordon's |
| MachinesServer.Server.SetMetadata | internal/server/server.go:633-656 | world and reply are Emulator.HandleMetadata's |
| MachinesServer.Server.DeleteMetadata | internal/server/server.go:658-671 | world and reply are Emulator.HandleMetadata's |
| MachinesServer.Server.GetLease | internal/server/server.go:675-686 | world and reply are those of the lease operation, once the machine is found |
| MachinesServer.Server.AcquireLease | internal/server/server.go:688-732 | a request with a nonce refreshes, one without acquires; the time asked for in wrapping seconds; a conflict never shows the nonce |
| MachinesServer.Server.ReleaseLease | internal/server/server.go:734-750 | world and reply are those of the lease operation, once the machine is found |
| MachinesServer.Server.Advance | internal/clock/clock.go:92-120 | the whole emulator advances as Emulator.AdvanceWorld says |
| MachinesServer.Server.Tick | internal/clock/clock.go:33 | the clock reads another time, and nothing else changes |
| MachinesServer.Server.FireAny | internal/clock/clock.go:35-37 | any live timer's callback runs at any reading, and does to the live objects what Emulator.FireAt says |
| Decoding.DecodeConfig | internal/server/server.go:883-898 | fresh objects, all the way down, of the value of the request's configuration |
| MachinesServer.Server.Serve | internal/server/server.go:141-180 | any request, decoded and dispatched, does to the live objects and answers what Emulator.Handle says |
| MachinesServer.Server.Perform | internal/clock/clock.go:28-46 | one step of either clock, or one request, does to the live objects what Runs.Exec says |
| MachinesServer.Server.Drive | internal/server/server.go:93-136 | after any legal run, requests, advances, ticks and firings in any order, the live objects are in the state Runs.Run says |
| MachinesServer.Server.WaitMachine | internal/server/server.go:563-614 | the poll loop over the live server, with any requests, advances and firings between its polls, answers as Waiting.WaitOn on what the polls see |

## Left out

* HTTP routing, JSON encoding and decoding (malformed bodies included), status codes, response texts, the health endpoint, main and shutdown: plumbing without state. Replies are a datatype.
* Secrets, IP assignments, certificates, volumes, regions, exec, ps and signal: map operations and canned replies that would add only easy members. Read-only endpoints (list and get apps, get machine, versions, metadata) are left out for the same reason; the copies they return are covered by the store.
* `internal/id`: randomness becomes the freshness assumption of `Runs.FreshRequest`.
* Mutexes, goroutines and the real clock: a request or a callback is one step, and any pending callback may fire next. The lease check, the terminal check and the mutation of one handler are separate locked sections in the program; interleavings inside a handler are not modelled.
* RFC3339 text, calendar time and the range of 64-bit times: times are integer nanoseconds. The two multiplications of seconds by a nanosecond count do wrap.
* Lease replies give the expiry in whole seconds; here they give the moment itself.
* Spare capacity of slices: appending always makes a new array. Nil and empty version lists are one value.
* Logging of skipped callbacks.
- Clock.Fake.BeginFire: does not run the callback, because closures are data; the round that marks, moves and runs is in LifecycleAdvancer.Advancer.Advance.
- Holder.OnlyTheHolderChanges: excludes app deletion and metadata, because the program does not gate them (`Holder.UngatedIffMetadata`, `Holder.AppDeletionIgnoresLeases`), and the machine's state, which callbacks pending from before go on changing (`Course.OnlyPendingCallbacksMoveIt` says how).
