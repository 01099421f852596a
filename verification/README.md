# PaciNet controller model

A Dafny model of the PaciNet fleet controller: the rollout state-machine engine, the deploy
protocol between controller and agents, the leader lease, the counter cache behind rate conditions,
the duration strings of definitions, and the event-stream parser of the simulator. The proofs are
about every input, every run, or every interleaving of these parts.

`dafny verify dfyconfig.toml` checks all of it.

## How it is laid out

Code that changes state is a class (`FsmInstance`, `MemoryStorage`, `LeaseTable`, `LeaderElection`,
`CounterSnapshotCache`) or a method with its loops (`ParseDuration`, `ProxyStream`, `DeployNode`,
`DeployNodes`, `RollbackPolicy`). Each method's postcondition equates the whole new state and result
with a function of the old state and the inputs; the lemmas are about those functions. What a function computes
is also stated without it, in terms of the definitions, snapshots, nodes, requests, texts or bytes that go in
(`DeployCalls`, `Readings`, `DeployActions`, `EngineCalls`, `StoreCalls`, `Durations.ErrorIff`,
`Definitions.InvalidIff`, `Utf8.DecodeUnits`, `Leases.GrantIff`).

| file | content |
|---|---|
| `Core.dfy`, `Text.dfy` | options and results, duplicate-free lists, trimming, decimal numbers |
| `Durations.dfy` | the duration parser and its grammar |
| `Definitions.dfy` | state-machine definitions, `validate`, and what it rejects |
| `Engine.dfy` | what one engine call computes |
| `DeployActions.dfy` | which nodes a deploy action takes and what it books, spelled out in the fleet |
| `Instances.dfy` | the engine calls as methods on an instance |
| `EngineRuns.dfy` | what every run of an instance keeps |
| `Conditions.dfy`, `Rollouts.dfy` | the meaning of conditions, and of "held for d" over runs |
| `EngineCalls.dfy` | what each engine call makes of an instance, spelled out; delays over runs |
| `Compounds.dfy`, `CompoundExamples.dfy` | "or" and "and" of sustained conditions, which share a clock |
| `Mixtures.dfy` | the same beside a condition without a duration |
| `Bookkeeping.dfy` | node lists over runs, batch rollouts |
| `BatchRuns.dfy` | batch rollouts inside engine runs, and the cursor that is carried along |
| `Counters.dfy` | counter cache, plain log, rates and totals |
| `Readings.dfy` | when a counter condition is met, spelled out in the cached snapshots |
| `Storage.dfy` | the in-memory store: nodes, versions, records, guard |
| `StoreCalls.dfy` | what the store's operations do to one another |
| `Deploys.dfy` | deploy to one and to many nodes, redeploy, rollback |
| `DeployCalls.dfy` | what a caller sees of a deploy and of a rollback, spelled out in request, node and store |
| `Actions.dfy` | the engine's rollback action on the store, and the answers its actions work with |
| `Protocol.dfy` | deployers, reaper, registrations, removals and heartbeats interleaved step by step, and what every step keeps |
| `Evidence.dfy` | what the deployment records tell about the agents; agreement, heartbeats and reported successes |
| `Uninterrupted.dfy` | deployers that nobody interrupts, and runs made of them |
| `Unguarded.dfy`, `Overlap.dfy` | deployers that ignore the guard: when they do no harm, and a run in which they do |
| `Leases.dfy` | the lease row, granted intervals, leader flags |
| `Sse.dfy` | the chunk-fed event-stream parser and its printer |
| `EventStandard.dfy`, `EventBlocks.dfy` | the parser beside section 9.2.6 of the WHATWG HTML standard, by line and by stream |
| `Utf8.dfy` | decoding body chunks one by one |

What a call reads from outside is a parameter: the clock (`now`), the node listing (which may fail),
the agents' answers, the counter cache, and the policy hash as an arbitrary function `H` of the rules
text. Times are integers in nanoseconds, rates are reals, and `u64` sums wrap as in a release build.

## Where the code falls short of what one might expect

Each of these is proved here: when the code does what one expects, for all inputs, and a concrete case in
which it does not.

* **Lease renewals.** A renewal keeps every later takeover from overlapping an earlier grant exactly when it
  does not move the expiry backwards (`Leases.RenewalSafeIff`); `Leases.ShortRenewalOverlaps` is a run in
  which one does. Controllers with a fixed duration never do that (`Leases.FixedSpansDisjoint`).
* **Leader flags.** A storage error leaves a raised flag raised, so two can be raised once the lease has run
  out (`Leases.StorageErrorsGiveTwoLeaders`); a second flag rises exactly when the row is free for the
  second controller (`Leases.SecondLeaderIff`).
* **Eviction.** Popping expired snapshots from the front is the same as filtering them out exactly when no expired
  one sits behind a fresh one (`Counters.EvictionExactIff`, `Counters.EvictionKeepsExpired`).
* **Compound conditions.** Counter conditions inside one transition share a clock. What "a for d, or b for e" and
  "a for d, and b for e" then wait for is exact (`Compounds.EitherIff`, `Compounds.BothIff`, and over runs
  `Compounds.EitherOverRuns`, `Compounds.BothOverRuns`): "or" never fires while b is unmet, "and" asks for b at
  one evaluation only (`CompoundExamples.EitherStaysPut`, `CompoundExamples.BothFiresAtOnce`). Beside a condition
  without a duration an "or" never waits at all (`Mixtures.OrIsInstant`), and an "and" depends on which of the two
  is written first (`Mixtures.AndTogetherIff`, `Mixtures.AndThenIff`).
* **Nothing to check.** A deployment without targets or deployed nodes checks the cached nodes; an evaluation that
  finds none answers false but leaves the clock running. "Held for d" then means met at its two ends and at every
  evaluation between that had a node to check (`Rollouts.SustainedOverRuns`,
  `CompoundExamples.HeldAcrossNothing`); with targets there is no such gap (`Rollouts.SustainedWithTargets`).
* **Batch cursor.** It is carried from state to state: an action entered with the cursor at c passes over its first
  c nodes (`BatchRuns.BatchesFrom`, `BatchRuns.PassedOver`).
* **Skipped deploys.** A deploy compared on a node fetched before a later rejected deploy of the same rules
  reports success although the agent does not run them (`Uninterrupted.StaleSnapshotReached`). A success is
  true if the node is still in the fetched state when compared under the guard
  (`Protocol.UnchangedShortcut`, `Protocol.SuccessTrue`), or if the first record of the current version is a
  success; with conclusive records it is true exactly when they say so (`Evidence.SuccessIff`).
* **Heartbeats.** After a rejected deploy a heartbeat makes the node Active with a policy its agent does not run
  (`Uninterrupted.HeartbeatAfterRejection`). What the store can tell beforehand is `Evidence.LatestMeaning`,
  and exactly, where the records are conclusive, `Evidence.HeartbeatIff`.
* **The rollback action takes no guard.** Beside a guarded deploy it can leave an Active node, all deployers
  finished, whose agent does not run the stored policy (`Overlap.RollbackOverlaps`). As long as it overlaps with
  no other deployer it is, but for the guard, a guarded deploy (`Unguarded.ClearIsGuarded`); over any run,
  deployers stay apart exactly when every entry is clear (`Unguarded.ApartIff`).
* **Redeploying** is idempotent exactly when the node was not Registered or Offline
  (`Deploys.RedeployIdempotentIff`): from those two states the final write of Active is refused
  (`Deploys.RegisteredRepeats`).
* **Durations.** A comment reads a trailing number without a unit as seconds; the code rejects it, and the model
  follows the code (`Durations.ErrorIff`). Sums wrap modulo 2^64, so a total may be rejected as zero
  (`Durations.ParseIffGrammar`, `Durations.TotalWrapsToZero`).
* **Event streams.** Which lines the parser treats as section 9.2.6 of the WHATWG HTML standard does is exact
  (`EventStandard.ConformsIff`); it does not for names without data, for more than one leading space, and for
  two fields without a colon (`EventStandard.NonConforming`), nor for a carriage return that stands alone
  (`EventStandard.LoneCarriageReturn`). At which moments a whole stream reads the same is exact by its blocks
  (`EventBlocks.StreamIff`), and so is which printed events come back (`Sse.ParsePrint`).
* **Decoding.** Each chunk is decoded on its own; the text is that of the whole body exactly when no chunk ends
  inside a character (`Utf8.DecodedIff`, `Utf8.CutCharacter`).

## Model

| member | source | states |
|---|---|---|
| Durations.ParseDuration | pacinet-core/src/fsm/mod.rs:17-61 | The character loop, as the recursive scan of the trimmed text: same value, same error in each case |
| Durations.ParseIffGrammar | pacinet-core/src/fsm/mod.rs:17-61 | Accepts exactly the texts that spell one or more "number unit" groups, each number in `u64`, with a total that is not zero modulo 2^64; the value is that total |
| Durations.ErrorIff | pacinet-core/src/fsm/mod.rs:17-61 | Each error is answered exactly when the trimmed text goes wrong in its way after some well-formed groups: a unit without a number, a number without a unit, one too large, an unknown unit, a total of zero, nothing at all |
| Durations.UnitsParse | pacinet-core/src/fsm/mod.rs:38-44 | n seconds, minutes, hours or days are n times 1, 60, 3600 or 86400 seconds, as long as that fits |
| Durations.SomeTexts | pacinet-core/src/fsm/mod.rs:16-61 | "5m" is 300 seconds and "2h30m" is 9000 |
| Durations.ParseAdditive | pacinet-core/src/fsm/mod.rs:29-58 | Writing two accepted, untrimmed strings after each other adds their durations |
| Durations.TotalWrapsToZero | pacinet-core/src/fsm/mod.rs:39-58 | The largest number of seconds with one more after it is rejected as zero |
| Durations.SpanPositive | pacinet-core/src/fsm/mod.rs:56-60 | An accepted duration is a positive clock span, saturated or not |
| Durations.SpanIs | pacinet-server/src/fsm_engine.rs:402-404 | A delay is its seconds exactly, up to 2^63 - 1 milliseconds, and that many from there on |
| Definitions.InvalidIff | pacinet-core/src/fsm/definition.rs:273-396 | A definition is rejected exactly when its initial state is unknown, no state is terminal, a terminal state has transitions, or some transition leads to an unknown state, has a delay that does not parse, or asks anywhere inside its condition a counter condition without threshold, with an unknown mode or field, or with a duration that does not parse |
| Conditions.TimelessMeaning | pacinet-server/src/fsm_engine.rs:437-486 | Evaluating a condition without durations, in the code's order with early stops, answers its declarative reading from any clocks |
| Conditions.DurationsParse | pacinet-core/src/fsm/definition.rs:273-396 | In a validated definition every `after` parses, and evaluating a transition's condition never comes to a `for` that does not: whatever the failing branch answered, the evaluation is the same |
| Conditions.FallbackImmaterial | pacinet-server/src/fsm_engine.rs:561-566 | The recursion of validation covers that of evaluation, at any depth and with its early stops |
| Conditions.FirstEnabledFires | pacinet-server/src/fsm_engine.rs:395-428 | An evaluation chooses transition k if and only if k is enabled and none before it is |
| EngineCalls.EnabledIff | pacinet-server/src/fsm_engine.rs:398-411 | A transition whose condition has no durations is enabled exactly when the condition holds; one without a condition exactly when it has a delay and that has passed since the last change of state |
| EngineCalls.EvaluationIs | pacinet-server/src/fsm_engine.rs:366-435 | An evaluation moves along the first enabled transition, with the timer as cause if it has a delay; with none enabled it changes clocks only; in a terminal state it completes the run; a move adds one record, drops the old state's clocks and no others, and performs the new state's action |
| EngineCalls.DelayOverRuns | pacinet-server/src/fsm_engine.rs:398-407 | In every run of any instance, after any number of evaluations that fired nothing: a delay-only transition is enabled exactly when its delay has passed since the record of entering the state, and if none before it is enabled the evaluation then records its move by timer |
| EngineCalls.AdvanceIs | pacinet-server/src/fsm_engine.rs:222-313 | A manual advance of a running instance goes to the state named if a transition leads there, else along the first transition marked manual, else along the first one, and moves the instance; with nowhere to go it changes nothing |
| EngineCalls.AdvanceRefused | pacinet-server/src/fsm_engine.rs:235-262 | An instance that is not running, or in a state the definition does not have, is refused with its error and left as it was |
| EngineCalls.CancelIs | pacinet-server/src/fsm_engine.rs:316-345 | A cancellation ends a running instance where it is, with one more record that names no state, and changes no other |
| EngineCalls.StartsAre | pacinet-server/src/fsm_engine.rs:122-219 | A deployment starts running in the initial state with its rules and no nodes; a start by label with the rules given and the nodes that carry the labels, in order, or fails without any or without a listing; the initial state's action is performed |
| EngineCalls.RulesOverRuns | pacinet-server/src/fsm_engine.rs:760-768 | Over every run the rules are those the instance was started with |
| Conditions.SustainedIff | pacinet-server/src/fsm_engine.rs:489-597 | A lone counter condition "for d" is enabled exactly when it was met at some evaluation of this stay at least d earlier, is met now, and was met at every one between that had a node to check |
| Rollouts.EntryInRun | pacinet-server/src/fsm_engine.rs:701-706 | Every non-terminal state a run enters, however the instance was started, is entered without clocks |
| Rollouts.SustainedOverRuns | pacinet-server/src/fsm_engine.rs:489-597 | The same equivalence after any prior run of evaluations, advances and cancels of any instance |
| Rollouts.SustainedWithTargets | pacinet-server/src/fsm_engine.rs:508-521 | For an instance with targets no evaluation is left out: met at one at least d earlier and at every one since |
| Rollouts.SustainedByLabel | pacinet-server/src/fsm_engine.rs:163-219 | The same for every instance started by label, over every run |
| Compounds.EitherIff | pacinet-server/src/fsm_engine.rs:471-475 | "a for d, or b for e" is enabled exactly when a is met now and some evaluation far enough back met b, with b met at every one since and a at every one after it, those without a node to check aside; far enough is d, or e if b is met now too |
| Compounds.EitherOverRuns | pacinet-server/src/fsm_engine.rs:489-597 | The same equivalence in every stay of every run of any instance |
| Compounds.EitherNeverFires | pacinet-server/src/fsm_engine.rs:489-597 | As long as b was never met, "or" is not enabled, however long a has been met |
| Compounds.BothIff | pacinet-server/src/fsm_engine.rs:466-470 | "a for d, and b for e" is enabled exactly when both are met now and the clock is d and e old, where the clock starts with a and is dropped when a is not met or when it has reached d while b is not met |
| Compounds.BothOverRuns | pacinet-server/src/fsm_engine.rs:489-597 | The same equivalence in every stay of every run of any instance |
| Compounds.BothNeeds | pacinet-server/src/fsm_engine.rs:489-597 | When "and" is enabled, a has been held for d and e, while b is met at this evaluation |
| Compounds.BothFiresEarly | pacinet-server/src/fsm_engine.rs:489-597 | "and" is enabled once a has been held for d and b is met at that one evaluation, though not before |
| Mixtures.OrIsInstant | pacinet-server/src/fsm_engine.rs:471-475 | "a for d, or b", in either order, with b without a duration, is enabled exactly when b is met at that evaluation, however long a has been met |
| Mixtures.AndTogetherIff | pacinet-server/src/fsm_engine.rs:466-470 | "b, and a for d" is enabled exactly when both were met at some evaluation of the stay at least d earlier, are met now, and were at every one between that had a node to check |
| Mixtures.AndThenIff | pacinet-server/src/fsm_engine.rs:466-470 | "a for d, and b" is enabled exactly when both are met now and the clock is d old, which is dropped when a is not met, or when it has reached d while b is not met |
| Mixtures.OrOverRuns | pacinet-server/src/fsm_engine.rs:489-597 | `OrIsInstant` in every stay of every run of any instance |
| Mixtures.AndTogetherOverRuns | pacinet-server/src/fsm_engine.rs:489-597 | `AndTogetherIff` in every stay of every run of any instance |
| Mixtures.AndThenOverRuns | pacinet-server/src/fsm_engine.rs:489-597 | `AndThenIff` in every stay of every run of any instance |
| CompoundExamples.EitherStaysPut | pacinet-server/src/fsm_engine.rs:489-597 | A definition and readings with r held for ten seconds at which "r for 1s, or q for 1s" is never enabled |
| CompoundExamples.BothFiresAtOnce | pacinet-server/src/fsm_engine.rs:489-597 | A definition and readings at which "r for 1s, and q for 1s" is enabled though q was not met a second before |
| CompoundExamples.HeldAcrossNothing | pacinet-server/src/fsm_engine.rs:523-526 | A deployment and readings at which "r for 1s" is enabled although nothing was cached, and so nothing met, at the evaluation between |
| EngineRuns.StepEffect | pacinet-server/src/fsm_engine.rs:222-435 | Every call has one of five effects; a fired transition starts its stay with no clocks at all |
| EngineRuns.ConditionFrame | pacinet-server/src/fsm_engine.rs:437-597 | Evaluating a condition, however compound, changes no clock but its own transition's |
| EngineRuns.MoveCaused | pacinet-server/src/fsm_engine.rs:395-428 | A move follows a transition of the definition; unless manual, that transition's condition can hold or its delay has passed |
| EngineRuns.AdvanceChoice | pacinet-server/src/fsm_engine.rs:239-297 | A named target is taken exactly when an edge leads there; otherwise the first manual transition, else the first one; each refusal has its error |
| EngineRuns.StepKeeps | pacinet-server/src/fsm_engine.rs:222-435 | One call of any kind keeps the run invariant |
| EngineRuns.EveryRunOk | pacinet-core/src/fsm/instance.rs:131-168 | Over every run: history starts at the initial state and chains, every later record but a cancel's is an edge with its cause, state and status agree with it, the update time is the last record's while running |
| EngineRuns.StoppedStays | pacinet-server/src/fsm_engine.rs:320-333 | Once an instance is not running, no run of calls changes it |
| EngineRuns.HistoryGrows | pacinet-core/src/fsm/instance.rs:152-163 | A call appends at most one record and rewrites none |
| EngineRuns.TimerNotEarly | pacinet-server/src/fsm_engine.rs:398-407 | Over every run, a delay-only edge is taken by timer only after its delay since the state was entered, otherwise by hand |
| EngineRuns.GateNeedsHand | pacinet-server/src/fsm_engine.rs:445-460 | Over every run, a state with only manual ways out is left by records with the manual trigger only |
| EngineRuns.BoundedRun | pacinet-server/src/fsm_engine.rs:395-428 | Over an acyclic definition every reachable history has at most one record per state, and one more after a cancel |
| Instances.FsmInstance.constructor | pacinet-core/src/fsm/instance.rs:131-149 | A new instance: running, in the initial state, with the start record |
| Instances.FsmInstance.TransitionTo | pacinet-core/src/fsm/instance.rs:152-163 | Pushes the record and moves state and time, nothing else |
| Instances.FsmInstance.EvaluateCounter | pacinet-server/src/fsm_engine.rs:489-597 | Result and clocks of one counter condition; thresholds, clock start and clock removal in the code's order |
| Instances.FsmInstance.EvaluateCondition | pacinet-server/src/fsm_engine.rs:437-486 | Result and clocks of a condition tree; nothing but clocks changes |
| Instances.FsmInstance.EvaluateEvery | pacinet-server/src/fsm_engine.rs:466-470 | The `and` list, stopping at the first false branch |
| Instances.FsmInstance.EvaluateSome | pacinet-server/src/fsm_engine.rs:471-475 | The `or` list, stopping at the first true branch |
| Instances.FsmInstance.ShouldFire | pacinet-server/src/fsm_engine.rs:398-411 | Whether one transition fires: its condition, else its delay, else never |
| Instances.FsmInstance.AddTargets | pacinet-server/src/fsm_engine.rs:820-825 | Adds to the targets each node not yet there, in order |
| Instances.FsmInstance.BookResults | pacinet-server/src/fsm_engine.rs:860-870 | Adds each result's node to the deployed or the failed list unless it is there |
| Instances.FsmInstance.DeployAndBook | pacinet-server/src/fsm_engine.rs:820-870 | Targets, results and last result of deploying one list of nodes |
| Instances.FsmInstance.RunDeploy | pacinet-server/src/fsm_engine.rs:759-883 | The deploy action with selection, limit, batch cursor and each early return |
| Instances.FsmInstance.RunRollback | pacinet-server/src/fsm_engine.rs:885-989 | The rollback action over all deployed nodes, with its early return |
| Instances.FsmInstance.RunAction | pacinet-server/src/fsm_engine.rs:749-757 | Deploy before rollback before alert, one of them at most |
| Instances.FsmInstance.FireTransition | pacinet-server/src/fsm_engine.rs:686-747 | Clears the old state's clocks, records, performs the action, completes in a terminal state |
| Instances.FsmInstance.EvaluateInstance | pacinet-server/src/fsm_engine.rs:366-435 | The periodic evaluation, its transition loop included, up to the first transition that fires |
| Instances.FsmInstance.AdvanceInstance | pacinet-server/src/fsm_engine.rs:222-313 | The manual advance with its errors |
| Instances.FsmInstance.CancelInstance | pacinet-server/src/fsm_engine.rs:316-362 | Cancels a running instance with a last record, refuses any other |
| Instances.CollectResults | pacinet-server/src/deploy.rs:363-424 | One result per node in order, with the running counts of both outcomes |
| Instances.LaunchInstance | pacinet-server/src/fsm_engine.rs:122-160 | A new instance after its initial state's action |
| Instances.StartInstance | pacinet-core/src/fsm/instance.rs:173-185 | A deployment starts with its rules and empty lists |
| Instances.StartAdaptiveInstance | pacinet-server/src/fsm_engine.rs:163-219 | An adaptive instance starts with the label-selected nodes, or fails when there are none or listing fails |
| Bookkeeping.SelectMeaning | pacinet-server/src/storage/memory.rs:66-80 | The selected nodes are exactly the registered ones that carry every label asked for |
| Bookkeeping.SelectNoDup | pacinet-server/src/storage/memory.rs:66-80 | No node is selected twice when ids are distinct |
| Bookkeeping.CountsAddUp | pacinet-server/src/deploy.rs:363-424 | Succeeded and failed add up to the number of results, and count the nodes of each outcome |
| Bookkeeping.OutcomesCover | pacinet-server/src/fsm_engine.rs:860-870 | Succeeding and failing nodes are exactly the nodes deployed to, each by its own answer |
| Bookkeeping.BatchBooks | pacinet-server/src/fsm_engine.rs:820-870 | A deploy adds exactly its nodes to the targets, exactly the answers to the other lists, keeps order and no duplicates |
| Bookkeeping.RollbackReport | pacinet-server/src/fsm_engine.rs:885-989 | A rollback action reports on each deployed node once, in order, and changes no list |
| DeployActions.SelectIs | pacinet-server/src/storage/memory.rs:66-80 | The label query answers the nodes at the positions whose labels agree in every key asked for, in the order of the listing |
| DeployActions.DeployTakes | pacinet-server/src/fsm_engine.rs:759-883 | A deploy action with rules, a listing and matching nodes deploys to the first matching nodes up to its limit, and with batches to one batch of those, the percentage rounded up, from the cursor on; targets, deployed and failed nodes grow by exactly these, in order and each once, by their own answers; the result counts them and has one entry for each; only batches move the cursor |
| DeployActions.DeployIdle | pacinet-server/src/fsm_engine.rs:760-816 | Without rules or a listing it does nothing; without matching nodes it reports zeros; with all batches done it reports the totals of the lists |
| DeployActions.OtherActions | pacinet-server/src/fsm_engine.rs:885-989 | Without a deploy part, a rollback reports on every deployed node in order by its own answer and changes nothing else; without deployed nodes, or with an alert alone, nothing changes |
| Bookkeeping.DeploymentBooks | pacinet-server/src/fsm_engine.rs:820-870 | Over every run of a deployment with a changing fleet: no duplicates, and targets = deployed ∪ failed |
| Bookkeeping.AdaptiveBooks | pacinet-server/src/fsm_engine.rs:163-219 | Over every run of a label-started instance: no duplicates, targets never empty, deployed and failed nodes are targets |
| Bookkeeping.BatchSizeRange | pacinet-server/src/fsm_engine.rs:798-803 | A batch is the percentage rounded up, at least one node and at most all |
| Bookkeeping.BatchesHandle | pacinet-server/src/fsm_engine.rs:798-818 | k runs over a fixed fleet handle exactly the first k batches, every node once, whatever is answered |
| Bookkeeping.RunsSuffice | pacinet-server/src/fsm_engine.rs:798-803 | 100/percent runs, rounded up, reach every node of a fleet of any size |
| Bookkeeping.BatchRolloutCovers | pacinet-server/src/fsm_engine.rs:798-818 | From a fresh deployment, 100/percent runs rounded up handle every node exactly once, and the next run reports succeeded + failed = total = n |
| BatchRuns.BatchesOverRuns | pacinet-server/src/fsm_engine.rs:798-870 | In every engine run of a deployment whose deploy actions are one batched action, over a fixed fleet: k entries to deploying states handled exactly the first k batches, each node once |
| BatchRuns.RunCovers | pacinet-server/src/fsm_engine.rs:798-870 | After 100/percent such entries, rounded up, every selected node was deployed to or failed, exactly one of the two |
| BatchRuns.BatchesFrom | pacinet-server/src/fsm_engine.rs:804-818 | An action entered with the cursor at c, wherever it was left, takes exactly its selected nodes from c on, batch by batch |
| BatchRuns.PassedOver | pacinet-server/src/fsm_engine.rs:804-818 | A selected node before the cursor becomes a target no more than it was |
| Counters.CounterSnapshotCache.RecordSnapshot | pacinet-server/src/counter_cache.rs:27-35 | Appends and keeps the newest `max_per_node` of that node, other nodes untouched |
| Counters.CounterSnapshotCache.EvictExpired | pacinet-server/src/counter_cache.rs:77-91 | Pops expired snapshots from each front and drops nodes left empty |
| Counters.CounterSnapshotCache.PopExpired | pacinet-server/src/counter_cache.rs:81-88 | The inner loop, for one deque |
| Counters.CounterSnapshotCache.RemoveNode | pacinet-server/src/counter_cache.rs:71-74 | Forgets one node |
| Counters.EvictionExactIff | pacinet-server/src/counter_cache.rs:77-91 | Popping from the front keeps exactly the fresh snapshots if and only if no expired one sits behind a fresh one |
| Counters.EvictionKeepsExpired | pacinet-server/src/counter_cache.rs:77-91 | Two reports of one node with dates out of order, after which eviction keeps the expired one |
| Counters.CacheRefinesLog | pacinet-server/src/counter_cache.rs:27-91 | With timestamps in order, after any run the cache of a node is the newest `max` of its plain log filtered at each eviction |
| Counters.CacheSize | pacinet-server/src/counter_cache.rs:27-35 | The cache of a node is a suffix of that log: all of it within capacity, else as many snapshots as fit |
| Counters.CacheIsSuffix | pacinet-server/src/counter_cache.rs:27-91 | With timestamps in any order, a node's cache is a suffix of all it ever reported, within capacity |
| Counters.LatestPairFromLog | pacinet-server/src/counter_cache.rs:38-46 | A pair, when answered, is the last two snapshots the node ever reported |
| Counters.RateMeaning | pacinet-server/src/counter_rate.rs:37-69 | A rate exists exactly when both snapshots have the rule and lie a millisecond apart; rate × window is the growth, zero after a reset |
| Counters.ConditionFromLog | pacinet-server/src/fsm_engine.rs:645-684 | A rate condition read from the cache is the same condition on the complete logs of exactly the nodes the cache holds a pair for |
| Counters.TotalFromLog | pacinet-server/src/fsm_engine.rs:600-643 | A total condition read from the cache is the same condition on the complete logs of exactly the nodes the cache holds a snapshot for, and asking all nodes fails without one |
| Readings.RateIs | pacinet-server/src/counter_rate.rs:37-69 | A node has a rate exactly when its last two cached snapshots both carry the rule and lie a whole millisecond or more apart; it is the growth of the chosen field between them, none after a reset, per whole milliseconds |
| Readings.MetIff | pacinet-server/src/fsm_engine.rs:489-684 | A counter condition is met exactly when the snapshots of its nodes say so: mode, field and thresholds, the newest count of each node compared or added up modulo 2^64, the growth between the last two snapshots of each node compared with the threshold times their distance, or the rates added up, over the nodes that have one, of which there is one at least |
| Storage.MemoryStorage.RegisterNode | pacinet-server/src/storage/memory.rs:56-60 | Adds the node, nothing else |
| Storage.MemoryStorage.Remove | pacinet-server/src/storage/memory.rs:82-89 | Removes node, policy, versions and guard, keeps records; says whether the node was there |
| Storage.MemoryStorage.UpdateHeartbeat | pacinet-server/src/storage/memory.rs:91-106 | Writes time and reported state unchecked, if the node is known |
| Storage.MemoryStorage.UpdateNodeState | pacinet-server/src/storage/memory.rs:108-122 | Writes a state only along a valid transition; the three answers |
| Storage.MemoryStorage.AddPolicy | pacinet-server/src/storage/memory.rs:156-184 | Appends version len + 1 and makes the policy current |
| Storage.MemoryStorage.GetPolicyHistory | pacinet-server/src/storage/memory.rs:190-200 | The newest `limit` versions, newest first |
| Storage.MemoryStorage.RecordDeployment | pacinet-server/src/storage/memory.rs:213-216 | Appends the record |
| Storage.MemoryStorage.TakeGuard | pacinet-server/src/storage/memory.rs:233-239 | Succeeds exactly when the guard is free, and it is set afterwards |
| Storage.MemoryStorage.ReleaseGuard | pacinet-server/src/storage/memory.rs:241-243 | Frees the guard of this node only |
| Storage.MemoryStorage.MarkStaleNodes | pacinet-server/src/storage/memory.rs:245-259 | Exactly the silent nodes that are neither Offline nor Registered become Offline, and are listed |
| Storage.HistoryNewest | pacinet-server/src/storage/memory.rs:190-200 | A history query answers min(limit, n) versions with strictly decreasing numbers, the first being the current policy |
| Storage.BackendsNumberAlike | pacinet-server/src/storage/sqlite.rs:286-307 | On every sound store MAX(version) + 1 is the in-memory len + 1 |
| Storage.StoreKeepsVersions | pacinet-server/src/storage/memory.rs:156-184 | Storing keeps versions 1..n and the current policy equal to the last version in every field |
| StoreCalls.TransitionsInto | pacinet-core/src/model.rs:19-33 | From which states each state may be set |
| StoreCalls.SilentIff | pacinet-server/src/storage/memory.rs:91-259 | After a heartbeat a sweep leaves the node as reported, or Offline exactly if it has been silent for longer than the threshold and was neither Offline nor Registered; every other node goes by its own last heartbeat |
| StoreCalls.UnknownNode | pacinet-server/src/storage/memory.rs:56-106 | A heartbeat of an unknown node changes nothing; a registration adds that node and changes no other |
| StoreCalls.RemovalForgets | pacinet-server/src/storage/memory.rs:82-89 | A node removed and registered again has no policy and no history, a free guard, and gets version 1; records stay and no other node is touched |
| StoreCalls.GuardIs | pacinet-server/src/storage/memory.rs:233-243 | The guard of a node is granted exactly when it is free, refused until it is given back, and independent of all others |
| StoreCalls.StoredIsNewest | pacinet-server/src/storage/memory.rs:156-200 | A stored policy is the current one and heads the history, before all that were there; no other node's history changes |
| Deploys.DeployNode | pacinet-server/src/deploy.rs:22-243 | One deploy: capability gate, no-change shortcut, store, Deploying, call, Active or Error, record |
| Deploys.DeployNodes | pacinet-server/src/deploy.rs:363-424 | The loop over nodes with guard, result list and counts |
| Deploys.DeployNodesResults | pacinet-server/src/deploy.rs:376-416 | The guard set is left as found, one result per node in order, a node whose guard was taken fails |
| DeployCalls.RefusedIff | pacinet-server/src/deploy.rs:269-361 | A deploy is refused, with nothing stored, recorded or sent, exactly when the request, an option of 0 or "" standing for its default, needs one of ten capabilities that the node does not advertise as "true" in any letter case |
| DeployCalls.SkippedIff | pacinet-server/src/deploy.rs:59-103 | A deploy that is not refused is skipped exactly when the node was fetched Active and these rules with these options, defaults filled in, are stored for it; it then only records a success under the newest version |
| DeployCalls.DeliveredIs | pacinet-server/src/deploy.rs:105-243 | Any other deploy stores the request, defaults filled in, as the next version and current policy, calls the agent, reports each of its four answers as such, leaves the node Active or Error unless it was Registered or Offline, records the result, and touches no other node |
| DeployCalls.DeployNodesIff | pacinet-server/src/deploy.rs:363-424 | Of distinct nodes each succeeds exactly when its guard is free, the request is not refused, and it is there already or the agent accepts it; no other node's policy or guard changes |
| Deploys.DeployKeepsVersions | pacinet-server/src/deploy.rs:105-139 | A deploy with any answer keeps the version store sound |
| Deploys.DeployKeepsRecords | pacinet-server/src/deploy.rs:83-92 | Every record of a registered node names an existing version with the same hash, the shortcut's record too |
| Deploys.DeployKeepsDeployable | pacinet-server/src/deploy.rs:30-60 | Every stored version is normalised and passes its node's capability gate |
| Deploys.RedeployIdempotentIff | pacinet-server/src/deploy.rs:44-103 | After a successful deploy, repeating the raw request on a fresh snapshot contacts no agent, adds no version, answers the same version and adds one Success record, exactly when the node was neither Registered nor Offline |
| Deploys.RegisteredRepeats | pacinet-server/src/deploy.rs:44-139 | A store with one node just registered: an accepted deploy succeeds, the node stays Registered, and the same request is not skipped |
| Deploys.RollbackPolicy | pacinet-server/src/service.rs:677-793 | The rollback call with guard, target choice, its errors and answers |
| Deploys.RollbackReaches | pacinet-server/src/service.rs:677-793 | By number, a rollback reaches exactly the newest ten versions |
| Deploys.RollbackSwaps | pacinet-server/src/service.rs:677-793 | Whatever the agent answers, rolling back makes the previous content current and the former current content previous |
| Deploys.RollbackTwice | pacinet-server/src/service.rs:677-793 | Two rollbacks to previous restore the stored content, whatever the agent answers to either |
| DeployCalls.RollbackDelivers | pacinet-server/src/service.rs:712-793 | Whatever the agent answers, a rollback to a version among the newest ten, by number or 0 for the one before the current, makes that version's content current; the answer names 0 after a failure, the newest version when nothing had to be done, else the version asked for; the store stays sound and the guard as it was |
| DeployCalls.RollbackRefused | pacinet-server/src/service.rs:684-749 | An unknown node, a missing version and a guard that is taken each get their own answer and leave the store as it was |
| Actions.RollBackDeployed | pacinet-server/src/fsm_engine.rs:885-989 | The rollback action's loop on the store: history, node, unguarded deploy, result and counts for each node |
| Actions.RollBackReverts | pacinet-server/src/fsm_engine.rs:885-989 | Rolling back distinct nodes makes the previous content of each that has one current, whatever the agents answer, keeps the store sound and touches no other node's versions; a node without a previous version fails |
| DeployCalls.RollBackNodesIff | pacinet-server/src/fsm_engine.rs:900-975 | Of distinct nodes each is rolled back with success exactly when it has a previous version and its agent accepts that or, as far as the store says, runs it already; no other node is touched |
| Actions.DeployAnswers | pacinet-server/src/deploy.rs:363-424 | Whatever deploying to distinct nodes does to the store, the engine's deploy action sees exactly its results |
| Actions.RollbackAnswers | pacinet-server/src/fsm_engine.rs:885-989 | Whatever rolling back does to the store, the engine's rollback action reports exactly its results |
| Protocol.NextKeeps | pacinet-server/src/deploy.rs:105-218 | Every atomic step of any deployer, the reaper, a registration, a removal or any heartbeat keeps the protocol invariant, whose part on node states rests on the heartbeats so far having fitted |
| Protocol.AcceptedRuns | pacinet-server/src/deploy.rs:141-218 | In every interleaving, a deployer whose call was accepted finds its own request stored as current and run by the agent |
| Protocol.MutualExclusion | pacinet-server/src/storage/memory.rs:233-243 | In every interleaving, with any heartbeats, at most one deployer of a registered node is between begin and end, and the guard is set exactly while there is one |
| Protocol.StoreIntegrity | pacinet-server/src/storage/memory.rs:156-216 | In every interleaving, with any heartbeats, versions are 1..n, the current policy is the last version, records of registered nodes name a version with their hash, and stored versions are normalised and within the node's capabilities |
| Protocol.HarmlessAgreement | pacinet-agent/src/service.rs:46-65 | In every interleaving in which heartbeats report only states that fit, which while a deploy is unsettled is any, a registered Active node with a free guard has an agent running exactly the stored current policy's rules |
| Protocol.UnchangedShortcut | pacinet-server/src/deploy.rs:59-64 | While heartbeats fit, a deployer under the guard that finds its request redundant and the node still in the fetched state has an agent running its rules |
| Protocol.SuccessTrue | pacinet-server/src/deploy.rs:59-218 | While heartbeats fit, a deployer that reports success leaves its request as the stored policy, and the agent runs it if it accepted or the node was still in the fetched state when compared |
| Evidence.RecordsTell | pacinet-server/src/deploy.rs:141-234 | In every run with any heartbeats, while the guard of a registered node is free every version has its record and the agent runs what the first records leave possible |
| Evidence.LatestMeaning | pacinet-server/src/deploy.rs:147-234 | First record Success: the agent runs the current version; AgentFailure: it runs what it may have run before; Unreachable or Timeout: either |
| Evidence.AgreementIff | pacinet-agent/src/service.rs:46-65 | Where the records are conclusive, the agent runs the last version recorded as a success, and agrees with the store exactly when that has the current rules |
| Evidence.HeartbeatIff | pacinet-agent/src/main.rs:294-302 | With a free guard and conclusive records, the heartbeat the agent sends leaves the node in a state that fits exactly when nothing, or the current rules, were recorded as a success last |
| Evidence.Agreement | pacinet-server/src/storage/memory.rs:91-122 | In every interleaving in which an Active report is believed only when the first record of the current version is a success or the node is Deploying, a registered Active node with a free guard has an agent running exactly the stored current policy's rules |
| Evidence.SuccessIff | pacinet-server/src/deploy.rs:59-218 | In every run with any heartbeats, a reported success leaves the request stored and recorded; it is true if the first record is a success, and with conclusive records exactly when they name the rules asked for |
| Uninterrupted.SoloIsSequential | pacinet-server/src/service.rs:391-414 | The atomic steps of an uninterrupted deployer compose to the sequential guarded deploy, and contact the agent exactly when it does |
| Uninterrupted.StaleSnapshotReached | pacinet-server/src/deploy.rs:59-103 | A run with fitting heartbeats that ends with a deploy reporting success for rules the agent does not run |
| Uninterrupted.HeartbeatAfterRejection | pacinet-server/src/storage/memory.rs:91-106 | A run in which a heartbeat after a rejected deploy leaves a node Active, its guard free, with an agent that does not run the stored policy |
| Unguarded.ClearIsGuarded | pacinet-server/src/fsm_engine.rs:961-969 | Every run in which deployers without the guard overlap with no other is, but for the guard, a run of guarded ones: same nodes, versions, records and agents |
| Unguarded.ClearResults | pacinet-server/src/fsm_engine.rs:885-989 | In such runs the store stays sound and, while nobody is at work on a node, its records tell what its agent runs, and an Active node agrees while heartbeats fit |
| Unguarded.EntryExclusiveIff | pacinet-server/src/fsm_engine.rs:961-969 | A deployer enters its section beside no other exactly when it is clear: a guarded one beside none without the guard, one without it while the guard is free and no other of its kind is inside |
| Unguarded.ApartIff | pacinet-server/src/fsm_engine.rs:961-969 | Over any run of guarded deployers and ones without the guard: at no time are two inside at one registered node if and only if every entry at a registered node is clear |
| Overlap.RollbackOverlaps | pacinet-server/src/fsm_engine.rs:885-989 | A run of one guarded deploy and one rollback action that ends with all deployers finished and an Active node whose agent does not run the stored policy |
| Leases.LeaseTable.TryAcquireLease | pacinet-server/src/storage/sqlite.rs:877-951 | The row after an attempt and the answer, in each of the four cases |
| Leases.LeaderElection.TryAcquire | pacinet-server/src/leader.rs:34-59 | One attempt with its flag; a storage error changes neither flag nor row |
| Leases.GrantsDisjoint | pacinet-server/src/storage/sqlite.rs:890-938 | Over every sequence of attempts without a shortening renewal, grants to different controllers never overlap |
| Leases.GrantIff | pacinet-server/src/storage/sqlite.rs:890-938 | After any run of attempts the next is granted, for its duration from its own time, exactly when there was no grant, the last one was the same controller's, or it has run out; else nothing changes |
| Leases.FixedSpansDisjoint | pacinet-server/src/leader.rs:62-87 | Controllers that each keep one lease duration never get overlapping grants |
| Leases.RenewalSafeIff | pacinet-server/src/storage/sqlite.rs:911-918 | A renewal keeps every later takeover disjoint if and only if it does not move the expiry backwards |
| Leases.ShortRenewalOverlaps | pacinet-server/src/storage/sqlite.rs:911-934 | Three attempts from an empty table whose grants to two controllers overlap |
| Leases.OneCurrentLeader | pacinet-server/src/leader.rs:62-100 | In every run, with delayed flag writes, errors and restarts, two raised flags never both belong to unexpired leases |
| Leases.UniqueLeader | pacinet-server/src/leader.rs:62-100 | While every raised flag's lease is unexpired, at most one flag is raised |
| Leases.UniqueLeaderInTime | pacinet-server/src/leader.rs:62-100 | In every run in which each leader tries again before its lease runs out, at most one flag is raised |
| Leases.SecondLeaderIff | pacinet-server/src/leader.rs:62-100 | Beside a raised flag, another controller's attempt raises a second one exactly when the row is free for it, and then the first lease has run out |
| Leases.RestartedWaits | pacinet-server/src/leader.rs:24-59 | A controller that starts anew is no leader before an attempt of its own, whatever the others do |
| Leases.StorageErrorsGiveTwoLeaders | pacinet-server/src/leader.rs:34-59 | A run with a storage error that ends with two raised flags |
| Sse.TakeLine | pacinet-sim/src/main.rs:1177-1203 | What one line does: name, data, dispatch at a blank line, anything else ignored |
| Sse.TakeLines | pacinet-sim/src/main.rs:1161-1203 | The inner loop takes exactly the complete lines and leaves the rest |
| Sse.ProxyStream | pacinet-sim/src/main.rs:1161-1203 | Over any chunks, the events emitted and the state left are those of the concatenated text, with one error event at a transport failure |
| Sse.TextsArrived | pacinet-sim/src/main.rs:1166-1209 | The text is what arrived before the first transport failure, which is reported as one event, and nothing is reported without one |
| Sse.DrainSplit | pacinet-sim/src/main.rs:1161-1203 | Parsing a longer buffer is parsing a part of it and then the leftover with the rest |
| Sse.ChunkIndependence | pacinet-sim/src/main.rs:1161-1203 | Events and leftover state depend on the concatenation of the chunks only |
| Sse.ParsePrint | pacinet-sim/src/main.rs:1161-1203 | However the printed text of some events is cut, the parser answers those very events with nothing left over if and only if each has a trimmed one-line name and data lines without leading space or trailing carriage return |
| Sse.EmitsPrintable | pacinet-sim/src/main.rs:1175-1192 | Over any chunks, every event the parser emits is of that kind |
| EventStandard.ConformsIff | pacinet-sim/src/main.rs:1172-1192 | From like states, the parser does with a line what section 9.2.6 says if and only if the line passes a test on its text and on what was collected |
| EventStandard.StreamConforms | pacinet-sim/src/main.rs:1161-1203 | On a text whose carriage returns all precede newlines and whose lines all pass that test, the parser emits over any chunks the messages the standard dispatches |
| EventBlocks.StreamIff | pacinet-sim/src/main.rs:1161-1203 | Of a text whose carriage returns all precede newlines, the parser has emitted after each line what the standard has dispatched by then if and only if every block ended by a blank line passes a test on its lines |
| EventStandard.NonConforming | pacinet-sim/src/main.rs:1175-1192 | Four lines with which the parser does something else |
| EventStandard.LoneCarriageReturn | pacinet-sim/src/main.rs:1171-1173 | A text in which a lone carriage return makes the two read different data |
| Utf8.DecodeEncode | pacinet-sim/src/main.rs:1170 | Decoding inverts encoding, for every text |
| Utf8.DecodeUnits | pacinet-sim/src/main.rs:1170 | Decoding any bytes takes off one unit and goes on: the encoding of a character if the bytes start with one, else a replacement character for the longest part that begins an encoding, or for a single byte that begins none |
| Utf8.DecodedIff | pacinet-sim/src/main.rs:1170 | Decoding chunk by chunk gives the text of the whole body if and only if no chunk ends inside a character that the next bytes go on with |
| Utf8.ByteIndependence | pacinet-sim/src/main.rs:1161-1203 | Then events and leftover state depend on the bytes only, not on how they were cut |
| Utf8.CutCharacter | pacinet-sim/src/main.rs:1170 | One character cut between its bytes arrives as two replacement characters |

## Left out

- gRPC and REST handlers, protobuf and JSON conversion, CLI, web UI, metrics, logging, TLS, webhooks, event bus, audit log, templates, annotations and status counts.
- Decoding of definitions from YAML or JSON: the model starts from the decoded values.
- The texts of the errors of `validate`, and which one is reported first when there are several.
- Storage errors, other than a failing node listing and a failing lease attempt; SQL text and the cascade that removes deployment records with a node in the SQLite backend.
- Clock detail: one call has one `now`, where the source reads the clock several times; the lease attempt is one atomic step on a shared monotone clock.
- Loading and storing an instance: a call is one step on the stored instance, so a stale copy that overwrites a concurrent cancel is not modelled; nor is the Failed status of an instance whose definition was deleted.
- Restart of an agent: it holds its rules in memory and registers again under a new id, so its old id can stay Active, with no agent, until it is marked stale; agreement does not cover that.
- Casts of node counts to `u32`.
- Instances.CollectResults: whether each node succeeds is an input here; Actions.DeployAnswers shows that every outcome of a deploy on the store is such an input.
- Instances.FsmInstance.DeployAndBook: the same, and compile options and messages are omitted.
- Instances.FsmInstance.RunDeploy: the same as DeployAndBook.
- Instances.FsmInstance.RunRollback: the causes of a node's failure are an input here; they are modelled in Actions.RollBackDeployed, and Actions.RollbackAnswers connects the two.
- Instances.LaunchInstance: looking up the definition by name and drawing the instance id are not modelled.
- Bookkeeping.BatchSizeRange: the source computes the percentage in floating point; the model rounds up in integers.
- Counters.ConditionFromLog: rates are reals, as in RateMeaning.
- Readings.MetIff: rates are reals, as in RateMeaning.
- Readings.RateIs: the same.
- DeployActions.DeployTakes: whether each node succeeds is an input; the percentage is rounded up in integers, as in BatchSizeRange; compile options are omitted.
- DeployActions.SelectIs: the order of the listing is an input, as the source lists a hash map.
- Counters.RateMeaning: rates are reals, so rounding and the order of summation are not modelled.
- Storage.MemoryStorage.Remove: the counter tables that are cleared as well are not part of this model.
- Storage.MemoryStorage.UpdateHeartbeat: the uptime is not part of this model.
- Deploys.DeployNode: storage errors and the texts of messages and warnings are not modelled.
- DeployCalls.DeliveredIs: storage errors and message texts are not modelled.
- Deploys.RollbackPolicy: that nothing changed is a flag of the deploy, where the source looks at the beginning of the message.
- Protocol.NextKeeps: an agent call that timed out is never applied later, node ids are not reused, and removing a node is one step.
- Protocol.UnchangedShortcut: assumes the heartbeats so far fitted; Evidence.SuccessIff does not.
- Protocol.SuccessTrue: assumes the same.
- Evidence.Agreement: assumes that the controller believes only backed Active reports, which the source does not ask for; without that, Evidence.AgreementIff and Evidence.HeartbeatIff say what holds.
- Protocol.HarmlessAgreement: assumes fitting heartbeats.
- Evidence.LatestMeaning: after Unreachable or Timeout the records do not tell whether the rules arrived, so nothing more follows.
- Unguarded.ClearIsGuarded: the history and the node that a rollback action reads first are read in one step.
- Leases.LeaseTable.TryAcquireLease: the cast of the duration and the text form of the times are not modelled.
- Leases.LeaderElection.TryAcquire: the timer loop is the interleaving of attempts in `Leases.Next`; that the server copies the flag nowhere else is not modelled.
- EventStandard.StreamConforms: one direction, as a line may differ without a later event showing it; EventBlocks.StreamIff is the exact form.
- EventBlocks.StreamIff: texts with a carriage return elsewhere are not covered.
- Sse.ProxyStream: works on text; decoding is in Utf8.DecodedIff, and the encoding of emitted events is not modelled.
