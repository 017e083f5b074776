# A verified model of XAIR's validation and commit protocol

XAIR decides whether a command ("intent") produced by an AI or XR source may reach an actuator. Intents
carry predicates over a shared, versioned, tree-shaped context. An intent is validated on a snapshot,
authorized, and later committed to an actuation log or released by a gateway. The guarantee is that an
authorization reaches the log only if every predicate it depends on held continuously since validation,
also when a change was undone in between. The guarantee rests on separate pieces of code agreeing with
each other. This project models those pieces in Dafny and proves that they do, over every input, every
interleaving and every run.

`dafny verify dfyconfig.toml` checks the whole project.

## Layers

| module | models | main result |
|---|---|---|
| `ContextTree`, `DottedPaths`, `Predicates`, `Versioning` | tree merge, leaf changes, typed evaluation, read-sets, the two versions | the frame property across all four |
| `Store` | the store as an atomic state machine with its history | exact read-set versions; sound and complete truth versions |
| `MemoryStore` | the in-memory store, an object with loops | every method is one step of `Store` |
| `Layouts`, `RedisStore` | three storage layouts, WATCH/MULTI/EXEC loops of any number of processes, the commit script, the local index cache | refinement of `Store`; cache coherence |
| `Lifecycle`, `Audit`, `Runtime`, `Window`, `Locks`, `RuntimeObject` | intents, policy, time bounds, transition table, admission, reports, target locks | conservation; at most once; exact idempotency window; exact conditions for the locks |
| `StopFence`, `EndToEnd`, `Exactness`, `StopRuns`, `FenceExamples`, `Gate` | stop epochs, request handlers over the store and the runtime, the gateway's recheck | end-to-end commit safety in all layouts; exactly when an intent is authorized, commits and passes the gate; the stop fence, where it holds and where not; true ages |
| `Consumer`, `ApplyCheck`, `Cell` | the log consumer with crashes and its recheck, the cell controller with restarts and a lossy bridge | exactly once in order; predicates held up to the apply; version-conditional actuation |
| `Timeline` | the sweep over a machine's work steps | refinement of counting |

`Wrappers` holds shared vocabulary. Paths are sequences of segments (`DottedPaths` shows that the string
tests agree), numbers are exact, clock readings are parameters, a timeout of the evaluation is a boolean.
`RuntimeObject` is the in-place form of the functions of `Runtime`: its methods follow the source statement
by statement and are proved equal to those functions, over whose runs the theorems are stated;
`ObjectIsSound` carries them back to the object.

## What is not as one might expect

The model follows the code. The properties below do not hold in general; each has a lemma that shows a failing
run and one that gives the exact condition.

- A stop-class intent is authorized with an empty read-set at version 0, so its commit depends on its id and
  its age alone (`EndToEnd.StopsCommitUnchecked`, an equivalence): a run logs a stop although its own
  precondition held on no version (`FenceExamples.StopCommitsOnFalse`). Commit safety is stated for the other
  classes.
- An intent whose fence read is not trusted is not fenced, and is validated and committed if the store is back
  by then, also after a stop (`FenceExamples.UnfencedCommitsAfterStop`). An intent carries the fence if and
  only if one of its fence reads was trusted, or its producer or the policy names the same predicate
  (`StopRuns.FencedIff`).
- With the shard layout a validation reads only the roots of the registered predicates, and the stop fence
  is not registered. A predicate on the bare stop root does not help, since it needs a scalar where the fence
  needs an object: predicates that hold on the store pass if and only if the layout is not the shard one or
  none of them is a fence (`StopFence.DocPassesIff`). The same moves authorize an intent in the other layouts
  and revoke it in the shard layout (`FenceExamples.FencedPassesUnlessSharded`). So in the shard layout an
  intent that is authorized or committed, unless a stop, had only untrusted fence reads
  (`StopRuns.ShardAuthorizesOnlyUnfenced`). What this leaves there: `StopRuns.NoStaleCommitAfterStop`
  speaks of no intent at all, and `EndToEnd.CommittedMeansHeld` of intents without a fence, which no stop
  holds back.
- A stop can be lost if two XAIR processes share a store: the lock that orders a fence read and the write of 0
  that follows it is one process's, so the 0 can wipe out a stop of another process, and an intent with a
  trusted fence read commits after it (`FenceExamples.LostStopCommits`). A write lowers no epoch if and only if
  its bucket holds no later one (`StopFence.StopRaisesIff`). `StopRuns.NoStaleCommitAfterStop` is stated
  for runs that keep that lock (`StopRuns.StopLocked`, one process), in which XAIR alone writes the stop
  root and the stop clock does not go back.
- An id submitted again after the retention window replaces its record even if that record is unsettled
  (`Window.ReplacesUnsettled`, an equivalence), which can leave a target locked for good
  (`Locks.LeakedLock`). Within a window the same happens if and only if the id has a record that no
  admission made (`Window.AdmitReplacesIff`, `Locks.LeakedByAdmission`).
- The release of a target lock is unconditional, so two authorized intents can share a target
  (`Locks.SharedTarget`); `Locks.StepKeepsLocksIff` says exactly which steps keep mutual exclusion.
- A cell controller restarted with a version seed can execute, on a paused line, a command witnessed in RUN
  (`Cell.SeedBreaksIt`). After a restart no version is ever paired with two states if and only if it begins
  above the last version, or at it in the same state (`Cell.RestartPairsIff`).
- Rechecking predicates without a version misses a change that was undone
  (`Gate.PredicateGateMissesUndoneChange`, on stores such as the one of `Gate.SwitchedOn`). A pass of that gate means that the registered predicates held
  throughout if and only if their truth version has not moved, which is what the truth scope tests
  (`Gate.PredicateGateIff`).

## Model

| member | source | states |
|---|---|---|
| `ContextTree.GetPath` | xair/core/versioning.py:36-42 | the reader's walk returns the value at the path, and nothing as soon as a segment is missing |
| `ContextTree.DeepMerge` | xair/core/deep_merge.py:6-14 | the key-by-key loop computes the recursive merge, for any two documents |
| `ContextTree.ComputeChangedPaths` | xair/core/versioning.py:65-76 | the loop collects exactly the patch leaves whose old value is missing or not the same |
| `ContextTree.Frame` | xair/core/versioning.py:26-76 | a path that no changed path equals, extends or prefixes looks the same before and after the merge: scalar/object replacement, empty objects and int/float rewrites included |
| `ContextTree.LeafAfterMerge` | xair/core/deep_merge.py:6-14 | after a merge every leaf of the patch is what the patch says |
| `ContextTree.RewriteChangesNothing` | xair/core/versioning.py:53-76 | applying a patch a second time changes no path |
| `ContextTree.ChangedIsReal` | xair/core/versioning.py:65-76 | a changed path is a leaf of the patch whose value differs afterwards |
| `ContextTree.PyEqIsPlain` | xair/core/versioning.py:53-62 | the equality used there identifies exactly the values that are the same once numbers, and inside containers Booleans, are taken for the real they count as |
| `ContextTree.ChangedMeans` | xair/core/versioning.py:53-76 | a leaf of a patch is reported if and only if its path held nothing, a value of another kind, or a different one; int and float are one kind, Booleans another, an empty object that meets an object is no change |
| `ContextTree.ScalarChange` | xair/core/versioning.py:53-62 | the same for integers, floats, Booleans and strings, with their own equality: 1.0 over 1 is no change, true over 1 is one |
| `DottedPaths.IndexIsExact` | xair/core/context_store.py:162-174 | the indexed related-path test finds a change if and only if the pairwise test does, for any strings |
| `DottedPaths.RelatedShareHead` | xair/core/context_store.py:234-243 | related paths share their first segment, so skipping other roots loses nothing |
| `DottedPaths.SplitJoin` | xair/core/context_validator.py:35-41 | splitting at dots undoes joining for paths a predicate can name |
| `DottedPaths.RelatedAgrees` | xair/core/versioning.py:89-90 | the string test for related paths is the prefix test on segments, both ways |
| `Predicates.EvaluatePredicates` | xair/core/context_validator.py:113-128 | the loop accepts if and only if all safety constraints and preconditions hold within the time budget |
| `Predicates.TruthFrame` | xair/core/context_validator.py:35-110 | a predicate to whose path no changed path is related keeps its truth across the merge |
| `Predicates.TruthNeedsOnlyItsRoot` | xair/core/context_validator.py:35-41 | truth depends only on the subtree under the path's first segment |
| `Predicates.TruthIsTyped` | xair/core/context_validator.py:63-110 | a true predicate had a present, scalar, comparable operand; orderings never hold on Booleans |
| `Predicates.NumbersCompare` | xair/core/context_validator.py:27-110 | for each of the six operators, a predicate over two numbers is true if and only if the numbers compare so; integers and floats alike, and a string next to a number counts as the number it converts to |
| `Predicates.StringsCompare` | xair/core/context_validator.py:97-110 | two strings are compared for equality only, letter by letter |
| `Predicates.BooleansCompare` | xair/core/context_validator.py:81-84 | a Boolean, or a string that spells one in any case, is compared with a Boolean for equality only |
| `Predicates.ElseFalse` | xair/core/context_validator.py:63-110 | every other predicate is false: unparseable ones, missing values, any other pairing of kinds |
| `Versioning.ReadSet` | xair/core/versioning.py:79-86 | the read-set lists each referenced path once |
| `Versioning.ComputeReadSetVersion` | xair/core/versioning.py:93-96 | the loop computes the largest version of a related path, 0 if there is none |
| `Versioning.ComputePredicateVersion` | xair/core/versioning.py:99-109 | the loop computes the largest truth version, -1 as soon as one predicate is not registered |
| `Store.RunCountsUpdates` | xair/core/context_store.py:221-244 | over any run the global version grows by the number of updates |
| `Store.StepKeepsInv` | xair/core/context_store.py:221-244 | every store operation keeps: history framed by its deltas, path versions exact, truth bits right since their version, log without repeated authorizations |
| `Store.ReachableInv` | xair/core/context_store.py:221-244 | the invariant holds in every reachable store |
| `Store.ReadSetVersionIsLastTouch` | xair/core/versioning.py:93-96 | the read-set version is the last version that changed something related to the read-set |
| `Store.ReadSetVersionExact` | xair/core/context_store.py:225-230 | over any run it moves if and only if an update in between changed a related leaf |
| `Store.ReadSetVersionSound` | xair/core/versioning.py:53-96 | equal read-set versions at two instants mean that no predicate over those paths changed truth on any version in between |
| `Store.TruthBitsAreCurrent` | xair/core/context_store.py:221-244 | in every reachable store each stored truth bit equals a fresh evaluation |
| `Store.TruthVersionSound` | xair/core/versioning.py:99-109 | equal non-negative truth versions mean that no predicate of the set flipped in between, across retirement and re-registration |
| `Store.TruthVersionComplete` | xair/core/context_store.py:236-243 | while a predicate stays registered its version stands still exactly when it does not flip |
| `Store.ReadSetUnmovedIff` | xair/core/versioning.py:93-96 | between two states of a store a read-set version stands still if and only if no update changed a leaf equal to, above or below one of its paths |
| `Store.TruthUnmovedIff` | xair/core/versioning.py:99-109 | over any run in which true predicates stay registered their truth version stands still if and only if each stayed true on every version |
| `Store.CommitIff` | xair/core/context_store.py:686-704 | a commit in either scope logs its authorization exactly if its id is new, its age within what the call allows and the version it sees the expected one; otherwise it writes nothing |
| `MemoryStore.MemoryStore.Update` | xair/core/context_store.py:329-347 | the object makes exactly the atomic update step, and retires exactly the registrations older than the retention |
| `MemoryStore.MemoryStore.RegisterAndSnapshot` | xair/core/context_store.py:755-762 | one atomic registration step; every requested predicate is in the returned snapshot |
| `MemoryStore.MemoryStore.CommitAuthorization` | xair/core/context_store.py:686-704 | the status is that of the atomic commit, and the log grows exactly on success |
| `MemoryStore.MemoryStore.AppendActuation` | xair/core/context_store.py:876-888 | one atomic append of a record that authorizes nothing |
| `MemoryStore.ApplyPatch` | xair/core/context_store.py:221-244 | merge, stamp, retire and re-evaluate, by loops, amount to the atomic update |
| `MemoryStore.RegistrationLasts` | xair/core/context_store.py:148-153 | a predicate registered at time t is still registered after any calls made until t plus half the retention |
| `MemoryStore.RegistrationEnds` | xair/core/context_store.py:232-234 | an update retires a registration if and only if it is later than its last stamp plus the retention |
| `Layouts.ReadSeesSameChanges` | xair/core/context_store.py:191-201 | reading only the patched roots finds the same changed paths as reading everything |
| `Layouts.UpdateAgrees` | xair/core/context_store.py:372-417 | in every layout the written roots and versions abstract to the merged context and the stamped path versions |
| `Layouts.PartialReadSeesSameTruth` | xair/core/context_store.py:419-439 | a predicate evaluated on its own root has the truth it has on the whole context |
| `Layouts.DocIsFaithful` | xair/core/context_store.py:441-480 | predicates that pass on the document a registration returns, whole or partial, hold on the store, and the document has the store's read-set version and truth version |
| `Layouts.RootsSuffice` | xair/core/context_store.py:42-127 | the read-set version computed from the read paths' roots equals the one from all path versions |
| `Layouts.CommitAgrees` | xair/core/context_store.py:42-127 | the script of each layout observes the same version as the in-memory commit |
| `RedisStore.OthersKeepKnowledge` | xair/core/context_store.py:521-537 | what a process read stays true until a key it watches is written, and its cache stays coherent, whatever the others do |
| `RedisStore.UpdateRefines` | xair/core/context_store.py:372-417 | a successful EXEC of an update, in any layout, is the atomic update |
| `RedisStore.RegisterRefines` | xair/core/context_store.py:788-827 | a successful EXEC of a registration is the atomic registration |
| `RedisStore.AnswersAreAtomic` | xair/core/context_store.py:729-749 | the version an update returns, the document a registration returns (by EXEC, by the document read or by the fast read) and the status of a commit agree with the atomic store at that round trip |
| `RedisStore.RegistrationIsOneStep` | xair/core/context_store.py:788-827 | behind such a document is one atomic registration, so registering and reading are one step |
| `RedisStore.RetireRefines` | xair/core/context_store.py:593-618 | a successful EXEC of the collector retires exactly its predicate, without a version bump |
| `RedisStore.RoundTrip` | xair/core/context_store.py:349-370 | every round trip of a process is one atomic step or nothing, and keeps index and knowledge right |
| `RedisStore.CommitScriptRefines` | xair/core/context_store.py:706-722 | the commit script is the atomic commit in every layout |
| `RedisStore.AloneUpdates` | xair/core/context_store.py:349-417 | an undisturbed update gets to its EXEC, in every layout; in the document layout it prepares to keep exactly the registrations not older than the retention |
| `RedisStore.AloneWrites` | xair/core/context_store.py:349-417 | the EXEC of an undisturbed update goes through and is the atomic update with what was prepared |
| `RedisStore.AloneRegisters` | xair/core/context_store.py:788-827 | the EXEC of an undisturbed registration goes through and stamps all it was asked for, or in the document layout the missing and old ones |
| `RedisStore.AloneRetires` | xair/core/context_store.py:593-618 | an undisturbed collection retires its predicate if and only if it is registered and older than the horizon |
| `RedisStore.ActRefines` | xair/core/context_store.py:349-370 | any action of any process in any state is one step of the atomic store |
| `RedisStore.RunRefines` | xair/core/context_store.py:349-370 | any interleaving of any number of processes equals a sequential run in the order of successful EXECs |
| `RedisStore.AnswersLinearize` | xair/core/context_store.py:349-370 | in any interleaving each answer, commit statuses included, agrees with the sequential run at its event |
| `RedisStore.VersionCountsUpdates` | xair/core/context_store.py:349-370 | no update is lost: the version equals the number of successful updates |
| `RedisStore.SharedTruthIsCurrent` | xair/core/context_store.py:482-519 | no flip is lost: in every reachable state of every layout each stored bit is current |
| `RedisStore.CacheIsCoherent` | xair/core/context_store.py:521-537 | a cached index line whose counter is current lists exactly the registered predicates of its root |
| `Lifecycle.EffectsFollowRelease` | xair/core/lifecycle.py:18-40 | on every path of the transition table an effect follows a release, and a release excludes withholding and revoking |
| `Lifecycle.PolicyIsMandatory` | xair/core/runtime.py:152-162 | an intent the policy was applied to carries every predicate on the policy's list for its action and on that for its class; what was added is on one of them, was not declared and appears once; a second application adds nothing |
| `Lifecycle.TimeAcceptsIff` | xair/core/temporal_validator.py:45-80 | exactly what validation, release and commit accept, in the intent's own fields: not too far ahead, and the age plus epsilon (plus the margin) within window and deadline, or within the deadline and without one the window |
| `Lifecycle.TrueAgeBound` | xair/core/temporal_validator.py:27-80 | with clocks within epsilon an accepted intent meets its declared bounds on its true age, and neither epsilon nor a margin widens the validation, release or commit bound |
| `Audit.AuthorizationsBalance` | xair/core/lifecycle.py:71-89 | over any legal audit trail authorizations balance with open, released, withheld, revoked and replaced ones |
| `Audit.OutcomesBalance` | xair/core/lifecycle.py:71-89 | releases and withholdings balance with the intents in those states and the replaced ones |
| `Audit.SinceIsWalk` | xair/core/lifecycle.py:71-89 | since its registration every intent walked the transition table to its latest state |
| `Audit.AtMostOnce` | xair/core/lifecycle.py:18-40 | a registration is authorized, committed and released at most once |
| `Runtime.ProcessSound` | xair/core/runtime.py:251-350 | a validation keeps trail, counters, records and release decisions consistent |
| `Runtime.RunSound` | xair/core/runtime.py:206-476 | every run, with any replays and conflicting reports, keeps them consistent; the callback gets exactly the released intents in order |
| `Runtime.Conservation` | xair/core/runtime.py:365-476 | on every run authorized = open + released + withheld + revoked when authorized + replaced while open |
| `Runtime.ReportsAreOnce` | xair/core/runtime.py:392-439 | the recorded decision of a record is release or withhold exactly if its trail has that state, each at most once |
| `Runtime.EffectMeans` | xair/core/runtime.py:445-466 | a report gives a released intent, or one whose effect is unknown, the reported effect; repeats are answered, all others refused; no other record changes |
| `Window.ExpireIs` | xair/core/runtime.py:190-199 | an eviction keeps a suffix of the table and forgets exactly the settled records of the dropped ids |
| `Window.UnsettledSurvives` | xair/core/runtime.py:190-199 | an eviction never forgets an unsettled record |
| `Window.WindowIsExact` | xair/core/runtime.py:190-219 | under a monotonic clock the table stays sorted, every id in it has a record, and after an eviction it is the set of ids admitted within the horizon |
| `Window.ReplacesUnsettled` | xair/core/runtime.py:206-219 | a resubmitted unsettled id is a duplicate if and only if it was admitted within the horizon; otherwise its record is replaced |
| `Window.AdmitReplacesIff` | xair/core/runtime.py:206-219 | within a window an admission replaces a record if and only if the id has one that no admission made |
| `Window.ActuatedOnce` | xair/core/runtime.py:437-438 | within a window no intent is handed to the actuation callback twice |
| `Window.WindowConservation` | xair/core/runtime.py:365-476 | within one retention window, validations of unadmitted ids included, conservation holds in terms of counters and records alone |
| `Locks.DropIff` | xair/core/coordinator.py:21-22 | the unconditional release keeps exclusion if and only if the record held the lock or nobody did |
| `Locks.OverwriteIff` | xair/core/runtime.py:206-219 | overwriting a record leaks a lock if and only if it was the only holder of a held target |
| `Locks.StepKeepsLocksIff` | xair/core/runtime.py:308-345 | a step keeps the locks in order if and only if it strands no lock and drops none that another intent holds |
| `Locks.StepNeverLeaks` | xair/core/runtime.py:365-476 | in every mode only stranding can leave a held target without an authorized intent |
| `Locks.LocksNeverLeak` | xair/core/runtime.py:308-476 | within a retention window every held target has an authorized intent |
| `Locks.OptimisticRunsExclude` | xair/core/runtime.py:308-476 | with optimistic releases, revokes of authorized intents and no stop class, held targets are those of the authorized intents and no two share one |
| `Locks.SharedTarget` | xair/core/runtime.py:468-476 | a run in which revoking a delayed intent lets two authorized intents share a target |
| `Locks.LeakedLock` | xair/core/runtime.py:206-219 | a run in which a resubmission after the window leaves a lock without an owner |
| `Locks.LeakedByAdmission` | xair/core/runtime.py:206-219 | a run in which admitting an id after its validation leaves a lock without an owner |
| `RuntimeObject.XAIRRuntime.Expire` | xair/core/runtime.py:190-199 | the eviction loop computes the eviction |
| `RuntimeObject.XAIRRuntime.AdmitIntent` | xair/core/runtime.py:206-219 | one admission step; the answer is a duplicate exactly if nothing was registered |
| `RuntimeObject.XAIRRuntime.ProcessIntent` | xair/core/runtime.py:251-350 | one validation step, all branches included |
| `RuntimeObject.XAIRRuntime.Validate` | xair/core/runtime.py:286-349 | the record after validation: class, versions, read-set, predicates and the decision |
| `RuntimeObject.XAIRRuntime.CommitOutcome` | xair/core/runtime.py:365-390 | one step; idempotent replay, refusal and both outcomes |
| `RuntimeObject.XAIRRuntime.GatewayReport` | xair/core/runtime.py:392-439 | one step; a moved version turns a reported release into a withholding |
| `RuntimeObject.XAIRRuntime.EffectReport` | xair/core/runtime.py:445-466 | one step; only a released intent can have an effect |
| `RuntimeObject.XAIRRuntime.RevokeIntent` | xair/core/runtime.py:468-476 | one step; refused once committed or released |
| `RuntimeObject.ObjectIsSound` | xair/core/runtime.py:51-59 | after any calls the object's trail is legal, its counters count it, and the callback got exactly the released intents |
| `StopFence.StopRaisesIff` | xair/adapters/http_server.py:81-106 | writing an epoch, for a stop or at first sight, lowers none if and only if its bucket holds no later one |
| `StopFence.FenceMeans` | xair/adapters/http_server.py:92-95 | the fence predicate holds exactly if the bucket has an epoch not above the decision time less epsilon |
| `StopFence.FencePassesIff` | xair/adapters/http_server.py:92-95 | the fence lets a decision through if and only if, less epsilon, it does not precede the epoch (up to the truncation at an epoch of 0) |
| `StopFence.DocPassesIff` | xair/core/context_store.py:441-480 | predicates pass on the document of a validation if and only if they hold on the store and, in the shard layout, none of them is a fence |
| `StopFence.ShardRefusesFenced` | xair/core/context_store.py:419-439 | whatever the sharded entries hold, a fenced intent does not pass on the roots its validation reads |
| `EndToEnd.AuthorizedIsValidated` | xair/core/runtime.py:307-340 | an authorization other than a stop has every predicate true on the store its snapshot was read from, and that store's versions, also when the snapshot is partial |
| `EndToEnd.MoveKeepsInv` | xair/adapters/http_server.py:226-305 | every step of every handler, and any write to the context, keeps records, handlers, commits and log consistent |
| `EndToEnd.CommittedMeansHeld` | xair/adapters/http_server.py:410-456 | end-to-end commit safety: in every interleaving, layout and outage, each logged authorization other than a stop had every predicate its scope covers true on every version from validation to commit; its predicates are exactly the producer's, the policy's and, after a trusted read, the fence |
| `EndToEnd.MandatesHeld` | xair/core/runtime.py:144-162 | every predicate that some policy in force asks for the action of a committed intent, by action or by class, was true on every version from validation to commit |
| `EndToEnd.CommittedAge` | xair/adapters/http_server.py:436-449 | a committed record's true age at its store time plus the margin is at most its declared deadline, or without one its window |
| `EndToEnd.AuthorizedAge` | xair/core/temporal_validator.py:58-68 | an authorization other than a stop is within window and deadline on its true age |
| `EndToEnd.PrefixExtends` | xair/adapters/http_server.py:410-456 | a run only adds to its history, and what it commits later is committed at a later version |
| `Exactness.OutcomeIff` | xair/core/runtime.py:286-349 | an intent is authorized, degraded, delayed or expired if and only if its time, predicates on the store, target and declaration say so; in the shard layout no fence may be among the predicates |
| `Exactness.ReadSetRunCommitIff` | xair/core/context_store.py:686-704 | over any run of the store a validated record commits in read-set scope, and is logged, if and only if it is new and in time and no update in between touched its read-set |
| `Exactness.TruthRunCommitIff` | xair/core/context_store.py:686-704 | over any run in which its predicates stay registered it commits in truth scope if and only if it is new and in time and each of them stayed true on every version |
| `Exactness.HandlerCommitIff` | xair/adapters/http_server.py:410-456 | in every run of the system the commit of a handler that can reach the store is logged if and only if the record is new and in time and nothing touched its read-set since the version it was validated on |
| `StopRuns.FencedIff` | xair/adapters/http_server.py:81-95 | a committed intent carries the fence if and only if a fence read of it was trusted, or its producer or policy names the same predicate |
| `StopRuns.EpochsHold` | xair/adapters/http_server.py:81-106 | while XAIR alone, under one stop lock, writes the stop root and its clock does not go back, epochs are well formed and never decrease, over any run |
| `StopRuns.NoStaleCommitAfterStop` | xair/adapters/http_server.py:81-106 | in such runs of one process, once a stop is written, no intent of its bucket with a trusted fence read decided before it, less epsilon, commits in read-set scope |
| `StopRuns.ShardAuthorizesOnlyUnfenced` | xair/adapters/http_server.py:259-280 | in every run in the shard layout an authorized or committed intent other than a stop carries no fence and had no trusted fence read |
| `FenceExamples.FencedPassesUnlessSharded` | xair/core/context_store.py:441-480 | a run that authorizes a fenced intent in the document and hash layouts and revokes it in the shard layout |
| `FenceExamples.UnfencedCommitsAfterStop` | xair/adapters/http_server.py:87-89 | a run under all those assumptions in which an intent whose fence read was not trusted commits while a stop that follows its decision is on record |
| `FenceExamples.LostStopCommits` | xair/adapters/http_server.py:66-91 | a run of two processes in which an initialization wipes out a stop and an intent with a trusted fence read commits after it |
| `FenceExamples.StopCommitsOnFalse` | xair/core/runtime.py:287-298 | a run that logs the authorization of a stop although its precondition held on no version |
| `EndToEnd.StopsCommitUnchecked` | xair/core/runtime.py:287-298 | a stop commits in read-set scope if and only if its id is new and its age in bounds |
| `Gate.ReleaseMeansHeld` | scripts/actuator_gateway.py:483-521 | in every run, a pass of the gate for an authorized record means the vouched predicates held since validation, all but the fence hold now, and the intent is authorized and young enough |
| `Gate.ReadSetGateIff` | scripts/actuator_gateway.py:483-521 | in read-set scope the gate passes if and only if the store can be reached, the intent is authorized and in time, and no update since validation touched its read-set |
| `Gate.PredicateGateIff` | scripts/actuator_gateway.py:501-508 | for registered predicates, a pass of the gate without a version means they held throughout if and only if their truth version has not moved |
| `Gate.PredicateGateMissesUndoneChange` | scripts/actuator_gateway.py:501-508 | a validated record passes the gate without a version although its predicate did not hold in between, on every store in which the change is made and undone |
| `Consumer.IdempotentActuator.Apply` | xair/adapters/actuation_consumer.py:42-49 | an id has its effect the first time only; repeats are counted |
| `Consumer.ActuationConsumer.Poll` | xair/adapters/actuation_consumer.py:70-103 | offset, effects and withheld ids after a poll that completes or crashes before or after an apply |
| `Consumer.ReplayIsIdempotent` | xair/adapters/actuation_consumer.py:42-49 | reading records again changes nothing, new ones are appended in order |
| `Consumer.ExactlyOnceInOrder` | xair/adapters/actuation_consumer.py:70-103 | over any run of store operations, polls and crashes the effects are a duplicate-free prefix of the authorizing ids and cover everything below the offset |
| `Consumer.CompletedPollCoversAll` | xair/adapters/actuation_consumer.py:70-103 | after a completed poll the effects are all authorizations of the log |
| `Consumer.RecheckCovers` | xair/adapters/actuation_consumer.py:96-99 | with or without the recheck, over any run with crashes, effects never repeat, none lacks an authorization, and every authorization below the offset was applied or withheld |
| `ApplyCheck.FreshMeansHeld` | xair/adapters/actuation_consumer.py:79-95 | in every run, a committed record other than a stop that is neither moved nor late at a read has had every covered predicate true from validation to that read, and is young enough |
| `ApplyCheck.RecheckedEffectsHeld` | xair/adapters/actuation_consumer.py:70-103 | with the recheck on, each new effect comes from a record backed in this sense at the read before its apply |
| `Cell.CellObject.constructor` | scripts/cell_controller.py:64-81 | the boot version is the seed, else after the persisted one, else the clock |
| `Cell.CellObject.SetLineState` | scripts/cell_controller.py:83-92 | a change advances and persists the version; leaving RUN stops the conveyor |
| `Cell.CellObject.ScanOnce` | scripts/cell_controller.py:105-119 | each queued command is executed if and only if its version is current, the line is in RUN where it needs it, and its deadline has not passed; effects are counted |
| `Cell.RestartRisesIff` | scripts/cell_controller.py:68-76 | a restart keeps versions rising if and only if it begins above the last one; with a state file and no seed it always does |
| `Cell.RestartPairsIff` | scripts/cell_controller.py:68-92 | whatever is written after a restart, no version is paired with two states, if and only if it begins above the last version or at it in the same state |
| `Cell.VersionsNeverReused` | scripts/cell_controller.py:68-103 | with a state file no version is paired with two episodes, across changes, crashes and restarts |
| `Cell.StepReplicated` | scripts/cell_controller.py:121-146 | whatever the bridge loses, repeats or reorders, the replica is a past episode on every context version |
| `Cell.ConditionalCommandIsSafe` | scripts/actuator_gateway.py:526-531 | a command witnessed next to RUN and let through by the version check was executed in RUN, in the episode of its witness |
| `Cell.NoWitnessIsRefused` | scripts/actuator_gateway.py:708-710 | in no run with non-negative seeds and clocks is a conditional command without a witness executed |
| `Cell.SeedBreaksIt` | scripts/cell_controller.py:68-69 | a run in which a command whose witness was replicated next to RUN is executed on a paused line after a seeded restart |
| `Cell.ConveyorStaysSafe` | scripts/cell_controller.py:83-119 | with guarded commands and versions not reused the conveyor never runs on a line that is not in RUN |
| `Timeline.NaiveMeans` | experiments/mes_trace.py:80-84 | the counted state is IDLE exactly when no step is active and SETUP exactly when a setup step is |
| `Timeline.BoundariesCount` | experiments/mes_trace.py:69-71 | summing step boundaries up to t counts the steps active at t, zero-length ones included |
| `Timeline.BisectRight` | experiments/mes_trace.py:90-92 | the search returns how many change times are not after t |
| `Timeline.Sweep` | experiments/mes_trace.py:74-88 | the sweep's step function is right at every instant |
| `Timeline.Build` | experiments/mes_trace.py:69-88 | for any steps with start not after end the step function equals counting at every t >= 0 |
| `Timeline.State` | experiments/mes_trace.py:90-92 | the looked-up state is IDLE, SETUP or BUSY exactly as counting gives |
| `Timeline.NextChange` | experiments/mes_trace.py:94-97 | the next change is the first later instant at which the counted state differs, or never |

## Left out

- Order of the changed-path list, and dotted or empty keys inside a patch, which no predicate can read.
- Parsing of predicate text and conversion of numeric strings: a predicate comes with its path and comparison, the conversion is an uninterpreted function; NaN and infinities are not modelled.
- Clocks, latencies, reasons and other texts: clock readings are parameters, texts are dropped.
- Connection loss and reconnection inside one store operation: a lost connection is an abandoned operation of a process, and each use of the store by a handler says whether it was reachable.
- The bound of 32 on optimistic retries: a process may retry for ever or give up at any point.
- An update with an empty patch in the shard layout, which fails before it reaches the server.
- JSON encoding, HTTP, schema validation, OPC UA and Modbus plumbing.
- The batch endpoint, `LEGACY_SEPARATE_READ`, snapshots passed to a validation without path versions, and the claim of an id across processes (a discarded record in the model).
- Fence predicates under truth scope: they are not registered, so the stop fence is stated for read-set scope only.
- `set_policy` with its parsing and spelling rules: a policy is a value keyed by normalized action type.
- `IntentReceiver`, conflict resolution between intents of one batch, percentiles and latency metrics.
- `Timeline` handles one machine; grouping rows by machine and reading the archive are not modelled.
- Records and intents are values in tables: the sharing of one intent object between a caller and its record is modelled by the validation storing the intent it was given.
- EndToEnd.CommittedMeansHeld: excludes stop-class intents, whose commit checks no predicate; `EndToEnd.StopsCommitUnchecked` says so exactly.
