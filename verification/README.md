# Verified models of the Insights plugins

This project models the stateful and arithmetic cores of the Fairwinds Insights plugins and proves what they keep. Each
module follows one component; code that updates fields, slices or maps in place is a class or a method with loops,
proved against functions on values, and the laws are lemmas about those functions or about every run.

- `SendQueue`, `GoSlice`, `FlowClient`: the send queue of the network-flow agent. `SendQueue` is the protocol: each
  critical section, channel operation and network outcome is a step, a schedule of steps is an interleaving, and the
  invariant holds in every reachable state. `FlowClient` is the same code on Go slices, where the batch in flight and
  the queue are windows of one backing array; each method takes exactly the protocol steps its contract names, and a
  client carries the run that led to it.
- `DeltaTracker`: cumulative byte counters into increments, per connection, direction and life, over whole runs of polls.
- `RightSizerReport`, `RightSizerController`: the report of out-of-memory kills, with age-out from another goroutine
  between the creation of an item and its store, and the capped multiplicative raise of memory limits.
- `Composite`, `WorkerPool`: merging of image-trust verdicts, and the semaphore-bounded pool that collects them.
- `PolicySync`: the Kyverno reconcile step and its convergence.
- `MetricSplit`, `Storage`, `StorageMetrics`: splitting a pod's metrics over its containers, and volume claims end to end.
- `Allocated`: resources of pods and nodes.
- `UniqueFilename`: the search for a free file name, with 64-bit integers and decimal text.

Several promises do not hold of the code on all inputs. The code is modelled as it is; a lemma gives a failing input or
the exact condition under which the promise holds:

- `RemoveItems` (right-sizer) reads the length of the report before it takes the lock. If items age out in between and an
  item that is left is removed, one blank item per aged-out item enters the report, until the next age-out pass:
  `RightSizerController.AgeOutDuringRemoval` is such a run, `RightSizerReport.RemovalIsFilterIff`,
  `RightSizerReport.RemovalKeepsUniqueIff` and `RightSizerController.KeysStayUniqueIff` say exactly when.
- The same function indexes its copy at -1 when the item at the front is removed and the removal list goes on:
  `RightSizerReport.CrashesIffUnique` says exactly when, `RightSizerReport.MatchedListCrashesIff` does for the lists that
  the only caller builds, age-out included, and `RightSizerReport.RemovalCanCrash` gives one of them.
- The bound on patches needs every killed pod to carry at least the limit tracked last. A replica that still carries an
  earlier limit is patched again: `RightSizerController.PatchesBounded`,
  `RightSizerController.LaggingReplicaIsPatchedAgain`.
- A counter that restarts makes the delta tracker misreport a finished life: `DeltaTracker.FinishedLifeExactIff`,
  `DeltaTracker.RestartLosesBytes`.
- `dedupeSigners` joins fields with NUL and loses signers whose fields contain NUL: `Composite.DedupedKeepsAllIff`,
  `Composite.NulCanLoseSigner`.
- A sync converges on a name only if it was clean: expected with the ownership annotation and managed nowhere but where
  kubectl apply puts it, or no longer expected and managed nowhere but where kubectl delete looks, which is its own
  namespace, and under a kind that the sync lists: `PolicySync.ConvergesIff`, `PolicySync.KindChangeLeavesOldObject`,
  `PolicySync.DeleteLooksInOwnNamespace`, `PolicySync.UnlistedIsNotRemoved`. An expected policy of another kind is applied
  as new by every sync: `PolicySync.NextPlanIsQuietIff`, `PolicySync.UnlistedIsAlwaysNew`.
- A pod whose claim shares its name with one of another namespace can get the capacity of that one:
  `StorageMetrics.GetStorage`, `Storage.OwnCapacityIff`, `Storage.OtherNamespaceIsTaken`.
- Splitting a negative sample that does not divide evenly does not conserve it: `MetricSplit.SplitConservesIff`,
  `MetricSplit.NegativeIsNotConserved`.
- `UniqueFilename` does not end for a taken name with a non-numeric suffix if the file system knows the empty name:
  `UniqueFilename.FreeNameIffNotStuck`, `UniqueFilename.SearchCanBeStuck`.

Where code and comments differ, the models follow the code: `PopulateExistingItemFields` compares the container too;
`PodRequestsAndLimits` adds no pod overhead; `executeSyncActions` never fills `Updated`; `AddPVCRef` finds claims by name
whatever their namespace.

Preconditions that need a word: configuration values are positive where the constructors or defaults make them so; a file
system holds fewer than 2^63 files (the loop counter is a 64-bit int); every pod has a container (Kubernetes validates
this, and the code indexes the first); a kill concerns a container with a name; streams handed to the splitter share no
storage. An age-out pass or a store reads the clock once. The namespace of a pod is that of its owner.

The table starts with the main results; the other rows are the operations they are about, what they are built from and
the concrete cases. Lemmas that only serve a proof have no row.

## Model

| member | source | states |
|---|---|---|
| `SendQueue.InvAlongRun` | plugins/network-flow/pkg/agent/collector_client.go:89-305 | main result: in every interleaving of enqueues, flushes, cancellation and the sender, every reachable state has the queue as the end of the enqueue history, the partition of events, the drop accounts, the sent order, the kept newest events and no lost wakeup |
| `SendQueue.StopsOnlyWhenCancelled` | plugins/network-flow/pkg/agent/collector_client.go:114-168 | main result: in every run the sender gives up, or makes its last call of sendPending, only after a cancellation |
| `SendQueue.AllCanBeSent` | plugins/network-flow/pkg/agent/collector_client.go:114-182 | main result: from every state in which no failed batch is on its way back and the sender has not stopped, it can go on to send everything in flight or waiting, in order, dropping nothing |
| `FlowClient.Client.RefusedWhileEnqueuing` | plugins/network-flow/pkg/agent/collector_client.go:236-266 | main result: a send that fails while events are enqueued between drain and requeue: the queue ends as the newest MaxPendingEvents of old queue followed by the new events, in one backing array or several |
| `DeltaTracker.TrackerIsExact` | plugins/network-flow/pkg/agent/delta_tracker.go:32-103 | main result: over everything the tracker object reported, a connection whose counter never decreases within a life is reported to the last byte for finished lives, and up to its first reading for an open one |
| `RightSizerController.InvAlongRun` | plugins/right-sizer/src/controller/controller.go:186-379 | main result: under every interleaving of kills, stores, age-out, the two parts of removals and foreign resizes every container has at most one item, its counts match its stores, and anything else in the report is a blank item |
| `RightSizerController.KeysStayUniqueIff` | plugins/right-sizer/src/report/report.go:323-405 | main result: in every run all keys are unique throughout if and only if no removal leaves blank items, other than a first single one |
| `RightSizerController.PatchesBounded` | plugins/right-sizer/src/controller/controller.go:343-351 | main result: with increment above one, a run contains at most (maximum - 1) / (increment - 1) patches of a container since it was first seen, if every killed pod carries at least the limit tracked last |
| `RightSizerController.KillsAreCounted` | plugins/right-sizer/src/report/report.go:168-405 | main result: in every run a container has one item and its NumOOMs is the number of StoreItem calls for it since insertion |
| `RightSizerController.PatchesAreAllowed` | plugins/right-sizer/src/controller/controller.go:278-292 | main result: in every run no container is ever patched while patching is disabled or its namespace is not listed |
| `Composite.TwoLevelsAreOne` | plugins/image-trust/pkg/verify/composite.go:151-204 | main result: under policy any, merging per verifier and then across verifiers gives exactly the verdict of all tries taken one by one, errors and early exits included |
| `WorkerPool.EveryScheduleReturns` | plugins/image-trust/pkg/verify/verifier.go:59-110 | main result: no schedule deadlocks or runs on; each complete one has 7n + 2 steps and ends with the call returned |
| `WorkerPool.PoolDelivers` | plugins/image-trust/pkg/verify/verifier.go:59-110 | main result: on return every slot was written exactly once with its own image's result, whatever the schedule, and the semaphore is empty |
| `PolicySync.PolicySyncProcessor.SyncPolicies` | plugins/kyverno-policy-sync/pkg/sync/sync.go:66-125 | main result: after a sync a name that did not fail agrees with the expectation if and only if it was clean before: an expected one owned and managed nowhere but where kubectl puts it, another managed under listed kinds only and where kubectl looks; one error text per failed name; a failed fetch, list or parse changes nothing |
| `MetricSplit.SplitConservesIff` | plugins/prometheus/pkg/data/data.go:489-553 | main result: at every step the containers' values sum to the pod's if and only if the value is not negative or divides evenly |
| `StorageMetrics.GetStorage` | plugins/prometheus/pkg/data/data.go:365-398 | main result, end to end: for each pod with a claim and distinct container names, the containers' storage values at each step sum to the capacity of the claims its volumes select, the first by name, unless that sum is negative and does not divide; and to the pod's own claims if and only if the capacities of those add up to the same, as they do if each volume selects its own |
| `Allocated.NodesSumToPods` | plugins/workloads/pkg/allocated.go:68-126 | main result: for every resource the amounts of distinctly named nodes sum to the sum over all pods that run on one of them and have not terminated |
| `UniqueFilename.UniqueFilename` | plugins/falco-agent/pkg/util/util.go:13-29 | main result: terminates with the first free of the names tried; empty exactly for the empty name and for a taken name whose suffix is no number |
| `UniqueFilename.SuffixesDiffer` | plugins/falco-agent/pkg/util/util.go:20-26 | main result: no suffix comes back within 2^63 steps although the int wraps around |
| `SendQueue.StepKeepsInv` | plugins/network-flow/pkg/agent/collector_client.go:89-305 | every single step of the protocol keeps the invariant |
| `SendQueue.StepKeepsPlace` | plugins/network-flow/pkg/agent/collector_client.go:89-101 | every step keeps the queue a contiguous suffix of the history of at most MaxPendingEvents, and the in-flight batch directly in front of it unless the queue is full |
| `SendQueue.RequeuedIsSuffix` | plugins/network-flow/pkg/agent/collector_client.go:258-266 | a failed batch put in front of the queue and shed to the bound gives a suffix of the history again; what is shed is older than the newest MaxPendingEvents events |
| `SendQueue.StepConserves` | plugins/network-flow/pkg/agent/collector_client.go:204-266 | every step keeps sent, in-flight, waiting and dropped events a partition of the history |
| `SendQueue.EveryEventInOnePlace` | plugins/network-flow/pkg/agent/collector_client.go:89-266 | each event ever enqueued is in exactly one of the four places, exactly once |
| `SendQueue.SentIsSubsequence` | plugins/network-flow/pkg/agent/collector_client.go:233-256 | what was sent is what was enqueued, in enqueue order, nothing twice |
| `SendQueue.StepAccounts` | plugins/network-flow/pkg/agent/collector_client.go:268-305 | droppedPending, a count held between the two critical sections, the unlogged count and the logged total always add up to the number of dropped events |
| `SendQueue.DropsNeedBacklog` | plugins/network-flow/pkg/agent/collector_client.go:223-231 | in every run nothing is dropped unless at some moment more than MaxPendingEvents events were waiting |
| `SendQueue.StepKeepsWakeup` | plugins/network-flow/pkg/agent/collector_client.go:89-112 | a parked sender with a full batch waiting always has a flush token or an Enqueue about to give one; every step keeps this |
| `SendQueue.WakeupIsDue` | plugins/network-flow/pkg/agent/collector_client.go:96-112 | in every run such a sender is woken by steps that are already due |
| `SendQueue.CanFinish` | plugins/network-flow/pkg/agent/collector_client.go:147-151 | after a cancellation it can still send all of that, and then it stops |
| `SendQueue.RedialsAfterRefusal` | plugins/network-flow/pkg/agent/collector_client.go:137-165 | in every run a refused batch sends the sender back to dialing if the stream is new or nobody has cancelled; a connected sender that is cancelled makes one more call of sendPending instead |
| `SendQueue.StopsDialingOrDrained` | plugins/network-flow/pkg/agent/collector_client.go:117-168 | in every run the sender stops while it dials, or in its last call, with nothing left in the queue or with a refused batch |
| `SendQueue.DrainsBeforeStopping` | plugins/network-flow/pkg/agent/collector_client.go:147-151 | in every run a connected sender drains in a last call before it stops, unless it went back to dialing |
| `SendQueue.WakesAreSignalled` | plugins/network-flow/pkg/agent/collector_client.go:107-112 | in every run each wakeup by the flush channel uses up a signal of its own |
| `SendQueue.FullEnqueuesSignal` | plugins/network-flow/pkg/agent/collector_client.go:89-101 | in every run each enqueue that leaves a full batch signals once, or is about to, and no other one does |
| `SendQueue.WarnsIffAMinutePassed` | plugins/network-flow/pkg/agent/collector_client.go:283-298 | in every run a count added after a warning leads to the next one if and only if the clock is a minute past it |
| `SendQueue.FirstWarning` | plugins/network-flow/pkg/agent/collector_client.go:283-298 | in every run a count leads to a warning if there was none before, the clock being past the zero time |
| `SendQueue.WarningsAreAMinuteApart` | plugins/network-flow/pkg/agent/collector_client.go:283-298 | in every run the clock readings of two warnings about dropped events are at least a minute apart |
| `GoSlice.Append` | plugins/network-flow/pkg/agent/collector_client.go:263 | append on slices that may share a backing array, also when the copy overlaps: the result is old destination followed by old source, and cells outside the copied range keep their values |
| `FlowClient.Client.constructor` | plugins/network-flow/pkg/agent/collector_client.go:45-69 | a new client stands for the initial state; sizes that are not positive get the defaults |
| `FlowClient.Client.EnforceMaxLocked` | plugins/network-flow/pkg/agent/collector_client.go:223-231 | reslicing keeps the newest MaxPendingEvents events and counts the others |
| `FlowClient.Client.PushBack` | plugins/network-flow/pkg/agent/collector_client.go:94-95 | appending one event and shedding; no cell in front of the queue is written |
| `FlowClient.Client.EnqueueLocked` | plugins/network-flow/pkg/agent/collector_client.go:93-97 | takes exactly the Enqueue step, and an in-flight batch in the same backing array keeps its contents |
| `FlowClient.Client.Enqueue` | plugins/network-flow/pkg/agent/collector_client.go:89-101 | nil is ignored; otherwise the Enqueue step, followed by the signal exactly when a batch is full; an in-flight batch keeps its window and its contents, the queue its newest events and the new one |
| `FlowClient.Client.SignalFlush` | plugins/network-flow/pkg/agent/collector_client.go:107-112 | takes the signal step of an Enqueue that decided to flush |
| `FlowClient.Client.Flush` | plugins/network-flow/pkg/agent/collector_client.go:103-105 | puts a token into the flush channel unless it is there |
| `FlowClient.Client.ReceiveFlush` | plugins/network-flow/pkg/agent/collector_client.go:176-179 | the select loop takes the token, which is then gone, and starts a call of sendPending |
| `FlowClient.Client.DrainBatchLocked` | plugins/network-flow/pkg/agent/collector_client.go:204-221 | cuts the batch off the front of the queue, within the same backing array; nothing exactly when the queue is empty |
| `FlowClient.Client.DrainForSend` | plugins/network-flow/pkg/agent/collector_client.go:237-244 | takes exactly the Drain step, batch and queue staying in one array |
| `FlowClient.Client.SendSucceeded` | plugins/network-flow/pkg/agent/collector_client.go:246-254 | takes exactly the step of an accepted batch |
| `FlowClient.Client.SendFailedAndCounted` | plugins/network-flow/pkg/agent/collector_client.go:246-249 | takes exactly the steps of a refused batch up to the failure count |
| `FlowClient.Client.Requeue` | plugins/network-flow/pkg/agent/collector_client.go:258-266 | whether the append copies in place over the queue or into a new array, the queue becomes old batch followed by old queue, shed to the bound |
| `FlowClient.Client.PutBackFailed` | plugins/network-flow/pkg/agent/collector_client.go:258-266 | requeue takes exactly the PutBack step, and leads where a failed send leads: to dialing, to the last call, or to the end |
| `FlowClient.Client.HandleSendError` | plugins/network-flow/pkg/agent/collector_client.go:137-165 | the error branch takes exactly the three steps failure, count, put back; the sender dials again, unless it was connected and is cancelled, and then it drains once more, or this was the last drain |
| `FlowClient.Client.TakeDropped` | plugins/network-flow/pkg/agent/collector_client.go:269-281 | first critical section: takes exactly the step that empties droppedPending |
| `FlowClient.Client.AddDropped` | plugins/network-flow/pkg/agent/collector_client.go:283-298 | second critical section: takes exactly the step that adds the count and, at most once a minute, hands the sum to the log |
| `FlowClient.Client.LogDroppedPending` | plugins/network-flow/pkg/agent/collector_client.go:268-305 | takes exactly the steps that counter and clock call for; nothing but the drop accounts changes, and no count is lost between counter, pending figure and log |
| `FlowClient.Client.SendBatch` | plugins/network-flow/pkg/agent/collector_client.go:236-255 | takes exactly the steps of an empty, accepted or refused round: a batch moves from the queue to what was sent, or the queue is as it was |
| `FlowClient.Client.SendPending` | plugins/network-flow/pkg/agent/collector_client.go:233-256 | undisturbed, on a connection that accepts n more batches: takes the log steps, the accepted rounds and the last round; sends exactly the first min(queue, n times BatchSize) events in order, the rest is back in the queue, and it fails exactly if something is left; then the sender goes where a failed send leads, else it waits or, after the last call, stops |
| `FlowClient.Client.StandsForInvariant` | plugins/network-flow/pkg/agent/collector_client.go:89-305 | a valid client stands for a state of a run, so the protocol invariant holds of the contents of its windows |
| `FlowClient.Client.EnqueueAll` | plugins/network-flow/pkg/agent/collector_client.go:89-101 | any number of enqueues at any moment of the sender: the in-flight batch keeps its contents, the queue becomes the newest events of old queue and arrivals |
| `DeltaTracker.RunIsExact` | plugins/network-flow/pkg/agent/delta_tracker.go:49-103 | over every run of polls: finished lives without decrease are reported in full, an open one up to its first reading, both read off the polls alone |
| `DeltaTracker.RunReportsLives` | plugins/network-flow/pkg/agent/delta_tracker.go:49-103 | for all counters, restarts included: the bytes reported in a run are those of its finished lives plus the increments of the open life, and the record holds the last reading |
| `DeltaTracker.TrackedIffSeen` | plugins/network-flow/pkg/agent/delta_tracker.go:82-103 | after a poll exactly the connections seen in it are tracked |
| `DeltaTracker.FinishedLifeIsExact` | plugins/network-flow/pkg/agent/delta_tracker.go:136-148 | a finished life without decrease sums exactly to its last cumulative reading |
| `DeltaTracker.EmittedNeverWraps` | plugins/network-flow/pkg/agent/delta_tracker.go:77-78 | without decrease the emitted count never exceeds the last reading, so its 64-bit sum never wraps |
| `DeltaTracker.RestartExceedsFinal` | plugins/network-flow/pkg/agent/delta_tracker.go:143-148 | the true bytes of a life equal its last reading if and only if the counter never restarted |
| `DeltaTracker.FinishedLifeExactIff` | plugins/network-flow/pkg/agent/delta_tracker.go:136-148 | for every life: reported exactly if and only if there was no restart, or it ended below the reported amount at the value it was first seen with, or the wrapped 64-bit sum of the increments makes up for the first reading |
| `DeltaTracker.RestartLosesBytes` | plugins/network-flow/pkg/agent/delta_tracker.go:136-148 | readings 5 then 3: 3 bytes are reported of 8 |
| `DeltaTracker.ByteDeltaTracker.constructor` | plugins/network-flow/pkg/agent/delta_tracker.go:37-39 | nothing tracked, nothing reported |
| `DeltaTracker.ByteDeltaTracker.BeginPoll` | plugins/network-flow/pkg/agent/delta_tracker.go:41-47 | every record is marked unseen and otherwise kept |
| `DeltaTracker.ByteDeltaTracker.Observe` | plugins/network-flow/pkg/agent/delta_tracker.go:49-80 | changes the record of its own connection only; reports exactly the increments, and nothing when both are zero |
| `DeltaTracker.ByteDeltaTracker.EndPoll` | plugins/network-flow/pkg/agent/delta_tracker.go:82-103 | whatever the map order: drops exactly the unseen records and reports exactly their remaining bytes |
| `DeltaTracker.ByteDeltaTracker.Poll` | plugins/network-flow/pkg/agent/gadget_top_tcp.go:39-68 | a whole poll keeps the tracker in agreement with the run of polls; afterwards exactly the connections of this poll are tracked |
| `DeltaTracker.EventsOf` | plugins/network-flow/pkg/agent/gadget_top_tcp.go:70-98 | the events are those of the increments with known pod and destination and some bytes, in their order: same endpoints, same bytes, and the time the gadget gave or, if it gave none, the clock reading; so they carry exactly the reported bytes |
| `DeltaTracker.EventsCarryBytes` | plugins/network-flow/pkg/agent/gadget_top_tcp.go:70-98 | events with known pod and destination add up to the reported bytes, others to nothing |
| `RightSizerReport.ReportBuilder.PopulateExistingItemFields` | plugins/right-sizer/src/report/report.go:190-201 | finds an item exactly if one has the same kind, namespace, name and container, and returns the first |
| `RightSizerReport.ReportBuilder.CreateRightSizerReportItem` | plugins/right-sizer/src/report/report.go:168-185 | the item a kill produces, field by field: the known one with its count raised, or a new one |
| `RightSizerReport.ReportBuilder.StoreItem` | plugins/right-sizer/src/report/report.go:207-230 | the report after a store, field by field: an existing item is replaced in place keeping first kill and starting memory, a new one is appended with count one; all others stay |
| `RightSizerReport.ReportBuilder.RemoveOldItems` | plugins/right-sizer/src/report/report.go:323-342 | the items whose container was killed less than the age ago stay, in order, and no others; says whether anything changed |
| `RightSizerReport.AgedByLastKill` | plugins/right-sizer/src/report/report.go:323-342 | age-out by position: an item stays if and only if its last kill is less than the age ago, or there is no age |
| `RightSizerReport.ReportBuilder.RemovePass` | plugins/right-sizer/src/report/report.go:378-405 | the inner loop with its index stepping: removes the item exactly if named, and panics exactly if it is the first and named before the last entry |
| `RightSizerReport.ReportBuilder.RemoveFromCopy` | plugins/right-sizer/src/report/report.go:378-405 | the outer loop: panics exactly if the crash position is reached, else leaves exactly the unnamed items |
| `RightSizerReport.ReportBuilder.RemoveLocked` | plugins/right-sizer/src/report/report.go:386-404 | the locked part, on a copy whose length was read before: panics if and only if that copy crashes, else the report is what is left of the padded copy if anything in it was named |
| `RightSizerReport.ReportBuilder.RemoveItems` | plugins/right-sizer/src/report/report.go:378-405 | with any age-out passes between the read of the length and the lock: panics if and only if the padded copy crashes; otherwise the report after the removal, and whether anything was named; an empty list does nothing; terminates |
| `RightSizerReport.RemovalResult` | plugins/right-sizer/src/report/report.go:384-402 | for all inputs the removal is the order-preserving filter, followed by one blank item per aged-out item exactly if an item left is named and the blank item is not |
| `RightSizerReport.RemovalIsFilterIff` | plugins/right-sizer/src/report/report.go:384-402 | it is the order-preserving filter if and only if no items aged out meanwhile, or nothing left is named, or an entry names the blank item |
| `RightSizerReport.RemovalKeepsUniqueIff` | plugins/right-sizer/src/report/report.go:384-402 | keys stay unique if and only if no blanks are left, or exactly one and none was there |
| `RightSizerReport.BlanksAgeOut` | plugins/right-sizer/src/report/report.go:323-342 | blank items go with the next age-out, if it is on |
| `RightSizerReport.CrashesIffUnique` | plugins/right-sizer/src/report/report.go:378-405 | with unique keys the panic depends on the first two items only: exact condition on the caller's list |
| `RightSizerReport.CrashesIffAt` | plugins/right-sizer/src/report/report.go:378-405 | the panic happens if and only if some item is named before the last entry while nothing in front of it stays |
| `RightSizerReport.SingleRemovalIsSafe` | plugins/right-sizer/src/report/report.go:378-405 | removing one item never panics |
| `RightSizerReport.MatchedListCrashesIff` | plugins/right-sizer/src/report/report.go:235-405 | for a list picked from the report in its order, as the only caller builds it, whatever aged out since and however the copy is padded: exact condition of the panic |
| `RightSizerReport.ListedAtFrontCrashesIff` | plugins/right-sizer/src/report/report.go:235-405 | if the list does not name the blank item: panics if and only if the first item left is named before the last entry; undisturbed, if and only if the list has two entries or more and starts at the front |
| `RightSizerReport.RemovalCanCrash` | plugins/right-sizer/src/report/report.go:378-405 | removing two containers of one workload at the front of the report panics |
| `RightSizerController.ReportStaysCleanIff` | plugins/right-sizer/src/report/report.go:323-405 | in every run only stored items are in the report throughout if and only if no removal leaves blank items |
| `RightSizerController.AgeOutDuringRemoval` | plugins/right-sizer/src/report/report.go:323-405 | a run in which keys do not stay unique: two items age out between the length read and the lock of a removal |
| `RightSizerController.LimitsAlongRun` | plugins/right-sizer/src/controller/controller.go:335-373 | in every run in which nobody lowers a tracked limit, every tracked limit is at least the starting memory raised once per patch, and the patches fit the maximum |
| `RightSizerController.StepKeepsCounts` | plugins/right-sizer/src/report/report.go:168-405 | every step keeps one item per container and NumOOMs in step with stores |
| `RightSizerController.StepKeepsLimits` | plugins/right-sizer/src/report/report.go:107-135 | every step that lowers no tracked limit keeps limits at least the starting memory raised per patch, also if the API server rounds a patch up |
| `RightSizerController.PatchUnderMaximum` | plugins/right-sizer/src/controller/controller.go:343-351 | one step: a limit sent in a patch is at most the first-seen limit times maximum, whoever changed the current limit |
| `RightSizerController.LaggingReplicaIsPatchedAgain` | plugins/right-sizer/src/controller/controller.go:343-351 | a run in which that fails: a replica that still carries the earlier limit is killed and the container patched once too often |
| `RightSizerController.PatchesMatchRun` | plugins/right-sizer/src/controller/controller.go:343-372 | the patch count is the number of patches in the run since the container was first seen |
| `RightSizerController.OriginIsStable` | plugins/right-sizer/src/report/report.go:168-405 | over any stretch of a run in which a container stays in the report they do not change |
| `RightSizerController.PatchedIff` | plugins/right-sizer/src/controller/controller.go:278-355 | exactly when a kill is patched and to what: patching enabled, the namespace allowed, enough kills, the raised limit not zero and at most the maximum of the first-seen one, and the patch accepted |
| `RightSizerController.NotAllowedIsUntouched` | plugins/right-sizer/src/controller/controller.go:278-292 | in every run the limit of such a container changes only by others |
| `RightSizerController.PatchedKillIsLate` | plugins/right-sizer/src/controller/controller.go:286-288 | in every run a kill that is patched is at least the minimum-th one since the container entered the report |
| `RightSizerController.PodStoresKills` | plugins/right-sizer/src/controller/controller.go:294-374 | what one pod stores: the kills for memory since the start of containers in its spec, in their order, up to the first whose owner is not found |
| `RightSizerController.Controller.ProcessContainer` | plugins/right-sizer/src/controller/controller.go:335-373 | takes exactly the kill and store steps of the protocol on report and cluster, with the limit read back after the patch; no other limit changes, and this one only with permission, enough kills and an accepted patch |
| `RightSizerController.Controller.ProcessOOMKilledPod` | plugins/right-sizer/src/controller/controller.go:294-374 | walks the statuses with the code's skips and early return and takes exactly the protocol steps of the others; a limit in a namespace without permission stays as it was |
| `Composite.AnyIsVerifiedIff` | plugins/image-trust/pkg/verify/composite.go:151-171 | absent hard errors the verdict is Verified if and only if some answer is |
| `Composite.AnyTryDecides` | plugins/image-trust/pkg/verify/composite.go:151-204 | absent hard errors two-level merging says Verified if and only if some single try of some verifier does |
| `Composite.AllIsVerifiedIff` | plugins/image-trust/pkg/verify/composite.go:49-71 | policy all is Verified if and only if there is a verifier and all are Verified; then the observations are merged |
| `Composite.FirstRefusalDecides` | plugins/image-trust/pkg/verify/composite.go:49-60 | otherwise the first answer that is not Verified decides, with VerifiedBy filled in, or the error under its name, whatever follows |
| `Composite.BestIsFirstOfRank` | plugins/image-trust/pkg/verify/composite.go:173-204 | the merge picks the first observation of the best rank |
| `Composite.MergedIsReported` | plugins/image-trust/pkg/verify/composite.go:173-204 | the merge is the attempt that the order of statuses selects |
| `Composite.MergeObservations` | plugins/image-trust/pkg/verify/composite.go:173-204 | the attempt reported, with VerifiedBy filled in, is the first SignedUntrusted one; without any, the first Unsigned one; then the first VerificationError, the first Unknown, and else the first of all; empty input gives the error observation |
| `Composite.VerifyAny` | plugins/image-trust/pkg/verify/composite.go:151-171 | the verdict under policy any: the first error, under its verifier's name, or verified observation, else the attempt that the order of statuses selects, with the mode of the first attempt if it has none |
| `Composite.VerifyAll` | plugins/image-trust/pkg/verify/composite.go:49-71 | the verdict under policy all: the first answer that is not Verified, or the last observation with what the others add: the signers of all verifiers, in their order, the first one of each key, the last attestation type and the main signer |
| `Composite.MergeVerifiedObservations` | plugins/image-trust/pkg/verify/composite.go:73-107 | last attestation type given, first signer of the signature modes, else that of the last observation, else of the attestation modes; of all signers that are not empty the first one of each key, in the order of verifiers and of their lists; the fixed reason |
| `Composite.DedupeSigners` | plugins/image-trust/pkg/verify/composite.go:131-149 | the loop keeps the first occurrence of each key |
| `Composite.VerifyKeys` | plugins/image-trust/pkg/verify/cosign_key.go:43-68 | the key loop gives the first error or verified try, else the try that the order of statuses selects, under the verifier's name |
| `Composite.VerifyKeysByTypes` | plugins/image-trust/pkg/verify/cosign_attestation_key.go:49-76 | so do the nested loops, keys before types: the try with key i and type j is the j-th after those with earlier keys |
| `Composite.KeyedTriesAreValid` | plugins/image-trust/pkg/verify/cosign_attestation_key.go:78-136 | every try of a keyed verifier carries the verifier's mode, as two-level merging needs |
| `Composite.FirstAcceptedIsNamed` | plugins/image-trust/pkg/verify/cosign_attestation_key.go:49-136 | the first run of cosign that accepts, keys before types, gives the verdict: Verified, with that key, that type and the signers of that run |
| `Composite.NoneAcceptedIsUnverified` | plugins/image-trust/pkg/verify/cosign_attestation_key.go:49-136 | without one the image is not Verified and nobody is named as its signer |
| `Composite.DedupedPicksFirsts` | plugins/image-trust/pkg/verify/composite.go:131-149 | what deduplication keeps are first occurrences of keys of non-empty signers, in order |
| `Composite.FirstIsKept` | plugins/image-trust/pkg/verify/composite.go:131-149 | every first occurrence is kept |
| `Composite.DedupedIsClean` | plugins/image-trust/pkg/verify/composite.go:131-149 | no empty signer and no key twice |
| `Composite.DedupedKeepsAllIff` | plugins/image-trust/pkg/verify/composite.go:131-149 | every non-empty signer is kept if and only if keys tell the signers apart |
| `Composite.NulFreeKeysTellApart` | plugins/image-trust/pkg/verify/composite.go:140 | keys tell signers apart whose issuers and subjects are free of NUL, whatever their key references |
| `Composite.NulCanLoseSigner` | plugins/image-trust/pkg/verify/composite.go:140 | two signers with NUL bytes of which one is lost |
| `WorkerPool.InvAlongRun` | plugins/image-trust/pkg/verify/verifier.go:59-110 | in every schedule slots, wait group, progress and results are in step with the workers |
| `WorkerPool.PoolIsBounded` | plugins/image-trust/pkg/verify/verifier.go:59-110 | at no moment do more than max(1, maxConcurrent) workers hold a slot; the wait group never goes negative |
| `WorkerPool.BoundIsReached` | plugins/image-trust/pkg/verify/verifier.go:59-110 | and that many workers can hold a slot at once, if there are as many images |
| `WorkerPool.NeverStuck` | plugins/image-trust/pkg/verify/verifier.go:59-110 | unless the call has returned some step can be taken |
| `PolicySync.PolicySyncProcessor.ApplyPolicy` | plugins/kyverno-policy-sync/pkg/sync/policy_manager.go:101-112 | kubectl apply writes the object in the namespace of the YAML, else kubectl's own, and no other |
| `PolicySync.PolicySyncProcessor.RemovePolicy` | plugins/kyverno-policy-sync/pkg/sync/policy_manager.go:115-124 | kubectl delete without a namespace: fails and changes nothing if no such object is in kubectl's own namespace, else that object goes, and no other |
| `PolicySync.PolicySyncProcessor.SyncThenPlan` | plugins/kyverno-policy-sync/pkg/sync/sync.go:66-125 | if all names were clean and none failed, the cluster agrees everywhere; the next plan removes nothing and applies exactly the policies of kinds that are not listed, so it is quiet if and only if all expected kinds are |
| `PolicySync.ConvergesIff` | plugins/kyverno-policy-sync/pkg/sync/sync.go:289-333 | exact condition for convergence of a name, with kinds, listed kinds, namespaces and where kubectl looks |
| `PolicySync.NextPlanIsQuietIff` | plugins/kyverno-policy-sync/pkg/sync/sync.go:289-333 | agreement on every name makes the next plan quiet if and only if the sync lists all expected kinds |
| `PolicySync.KindChangeLeavesOldObject` | plugins/kyverno-policy-sync/pkg/sync/policy_manager.go:29-98 | a policy whose kind changed leaves the old object managed: a concrete case |
| `PolicySync.DeleteLooksInOwnNamespace` | plugins/kyverno-policy-sync/pkg/sync/policy_manager.go:115-124 | a managed policy in another namespace stays, and an object that is not managed goes in its place, reported as removed: a concrete case |
| `PolicySync.ComparePolicies` | plugins/kyverno-policy-sync/pkg/sync/sync.go:289-333 | whatever the map order the plan lists each only-expected, common and only-deployed name exactly once |
| `PolicySync.PolicySyncProcessor.ExecuteSyncActions` | plugins/kyverno-policy-sync/pkg/sync/policy_manager.go:29-98 | every name not in Failed is settled and nothing else with that name is touched; Applied and Removed are the planned names that did not fail |
| `PolicySync.PolicySyncProcessor.ApplyAll` | plugins/kyverno-policy-sync/pkg/sync/policy_manager.go:37-76 | a loop of applies settles its names or records them as failed, one error each |
| `PolicySync.PolicySyncProcessor.RemoveAll` | plugins/kyverno-policy-sync/pkg/sync/policy_manager.go:78-96 | so does the loop of removals |
| `PolicySync.PolicySyncProcessor.ListInsightsManagedPolicies` | plugins/kyverno-policy-sync/pkg/sync/sync.go:128-189 | lists exactly the policies of the listed kinds that carry the ownership annotation |
| `PolicySync.UnlistedIsNotRemoved` | plugins/kyverno-policy-sync/pkg/sync/policy_manager.go:127-141 | a managed CleanupPolicy that nothing expects is not planned for and stays: a concrete case |
| `PolicySync.UnlistedIsAlwaysNew` | plugins/kyverno-policy-sync/pkg/sync/policy_manager.go:127-141 | an expected CleanupPolicy converges and is planned as new by every later sync: a concrete case |
| `MetricSplit.NegativeIsNotConserved` | plugins/prometheus/pkg/data/data.go:515-532 | -1 over two containers becomes -1 and -1 |
| `MetricSplit.SharesSumIff` | plugins/prometheus/pkg/data/data.go:515-532 | the shares of one value sum to it exactly if it is not negative or divides evenly; when it is not negative the first share exceeds the others by less than the number of containers |
| `MetricSplit.SharesAt` | plugins/prometheus/pkg/data/data.go:515-547 | each further container gets the floor of the quotient, timestamps are kept |
| `MetricSplit.DivideValues` | plugins/prometheus/pkg/data/data.go:508-532 | the loop that overwrites the stream with first shares, from saved originals |
| `MetricSplit.NewShare` | plugins/prometheus/pkg/data/data.go:536-547 | a further container's stream does not share storage with the first |
| `MetricSplit.SplitInPlace` | plugins/prometheus/pkg/data/data.go:501-549 | despite the mutation, the streams of a pod are the shares of its old contents |
| `MetricSplit.SplitOne` | plugins/prometheus/pkg/data/data.go:491-549 | a stream of an unknown pod yields nothing |
| `MetricSplit.AdjustMetrics` | plugins/prometheus/pkg/data/data.go:489-553 | the whole in-place transformation equals the split of the old contents, for streams that share no storage |
| `Storage.StorageInfo.AddPVCRef` | plugins/prometheus/pkg/models/persistentvolumeclaim.go:117-137 | totals per pod stay the sum of the capacities of the claims its volumes name, references stay exactly the pods with such a volume; unknown or empty names change nothing |
| `Storage.StorageInfo.ManufactureMetrics` | plugins/prometheus/pkg/models/persistentvolumeclaim.go:142-163 | one series per reference, references that are not namespace/name left out |
| `Storage.UseThisValueForEveryStep` | plugins/prometheus/pkg/models/persistentvolumeclaim.go:184-197 | samples of the value from the start of the range on, a step apart, as many as whole steps fit |
| `Storage.FirstNamed` | plugins/prometheus/pkg/models/persistentvolumeclaim.go:102-109 | the first claim with the name is taken |
| `StorageMetrics.ContainersSumToClaims` | plugins/prometheus/pkg/data/data.go:388-398 | storage end to end, about values: series, split and last-wins fold |
| `Storage.OwnCapacityIff` | plugins/prometheus/pkg/models/persistentvolumeclaim.go:102-137 | per volume: it adds the capacity of its pod's own claim if and only if the first claim of the name is in the pod's namespace or has the same capacity |
| `Storage.OwnVolumesGiveOwnClaims` | plugins/prometheus/pkg/models/persistentvolumeclaim.go:102-137 | if each volume selects its pod's own claim, the claims selected add up to the pod's own |
| `Storage.OwnNamesGiveOwnClaims` | plugins/prometheus/pkg/models/persistentvolumeclaim.go:102-137 | the claims selected are the pod's own if no claim of another namespace has a name that the pod refers to |
| `Storage.OtherNamespaceIsTaken` | plugins/prometheus/pkg/models/persistentvolumeclaim.go:102-137 | a pod gets the capacity of a claim of another namespace that is listed first: a concrete case |
| `StorageMetrics.AddVolumes` | plugins/prometheus/pkg/data/data.go:373-387 | the loop over the volumes of all pods: afterwards totals and references are those of the volumes added |
| `StorageMetrics.EntryIsShare` | plugins/prometheus/pkg/data/data.go:390-398 | the entry of each container is its share of its pod's series, although several series fold into it |
| `StorageMetrics.EntryNeedsClaim` | plugins/prometheus/pkg/data/data.go:390-398 | only containers of known pods with a claim get a storage value |
| `StorageMetrics.FoldInMemory` | plugins/prometheus/pkg/data/data.go:392-398 | the fold leaves the last series for each key |
| `Allocated.NodeSumsToPods` | plugins/workloads/pkg/allocated.go:97-126 | one node's amount is the sum over its active pods, the pod count included |
| `Allocated.PodValuesAreGreatest` | plugins/workloads/pkg/allocated.go:177-216 | for requests and for limits: a pod's value is the greater of the sum over its containers and every init container's value, defined exactly if some container defines the resource |
| `Allocated.ResourceList.Add` | plugins/workloads/pkg/allocated.go:192-201 | in whatever order the map is walked: the union of resources, each the sum of both sides |
| `Allocated.ResourceList.Max` | plugins/workloads/pkg/allocated.go:205-216 | in whatever order the map is walked: the union of resources, each the greater of those defined |
| `Allocated.MaxedIsGreater` | plugins/workloads/pkg/allocated.go:205-216 | of both lists all resources, each the greater of the values given |
| `Allocated.PodRequestsAndLimits` | plugins/workloads/pkg/allocated.go:177-189 | two separate lists, sums over containers raised to init containers |
| `Allocated.PodsScheduledOnNode` | plugins/workloads/pkg/allocated.go:68-81 | exactly the pods on the node that are pending, running or in an unknown phase, in order |
| `Allocated.GetNodeAllocatedResources` | plugins/workloads/pkg/allocated.go:97-126 | the totals of the pods, with the number of pods as resource pods |
| `UniqueFilename.FreeNameIffNotStuck` | plugins/falco-agent/pkg/util/util.go:13-29 | a free name is ever reached if and only if the search is not stuck: exact condition on name and files |
| `UniqueFilename.SearchCanBeStuck` | plugins/falco-agent/pkg/util/util.go:13-29 | the search never ends for a taken a_b on a file system that knows the empty name |
| `UniqueFilename.CollisionsEnd` | plugins/falco-agent/pkg/util/util.go:20-26 | no more names collide than there are files |
| `UniqueFilename.TriedIsNumbered` | plugins/falco-agent/pkg/util/util.go:20-68 | the k-th name keeps trunk and extension and has the k-th suffix |
| `UniqueFilename.TriedIsEmpty` | plugins/falco-agent/pkg/util/util.go:33-61 | a name that cannot be numbered turns into the empty name for good |
| `UniqueFilename.SuffixIsTriangular` | plugins/falco-agent/pkg/util/util.go:20-26 | suffixes are base + 1, 2, 4, 7 and so on, modulo 2^64 |
| `UniqueFilename.DecimalReadsBack` | plugins/falco-agent/pkg/util/util.go:57-64 | decimal print and parse round trip on every 64-bit int |
| `UniqueFilename.DecimalIsCanonical` | plugins/falco-agent/pkg/util/util.go:64-67 | printing adds no plus sign, a minus sign exactly to negative numbers, and no zero in front |
| `UniqueFilename.AtoiIff` | plugins/falco-agent/pkg/util/util.go:57-61 | what is read and what is refused: an optional sign and at least one digit, within 64 bits |
| `UniqueFilename.IncrementNumbered` | plugins/falco-agent/pkg/util/util.go:33-68 | incrementing a numbered name changes its number and nothing else |

## Left out

- Network and process effects: gRPC dialing and streams, tickers, back-off, kubectl, cosign and the Kubernetes and
  Prometheus APIs are nondeterministic outcomes or parameters of the steps.
- A Send that fails may still have been delivered; "sent" means that Send returned nil.
- Text: log lines, drop reasons, summaries, status updates, error wording and metrics counters.
- FlowClient.Client.SendPending: stated for a stretch in which no Enqueue interferes; what interleaves is covered step by step, and for a failing round by RefusedWhileEnqueuing.
- GoSlice.Append: the growth policy of Go's append is any capacity that is large enough.
- SendQueue.InvAlongRun: counters that Go keeps in int64 are unbounded here.
- The tracker's convenience method Delta (lines 107-121 of delta_tracker.go), which only wraps Observe, and the extraction of fields from the gadget's data source.
- Right-sizer persistence: ConfigMap writing and reading, the HTTP server, and matching of items by events (MatchItems and
  the generation test), which only selects the list that RemoveItems receives.
- Right-sizer arithmetic: quantities are exact reals and multipliers hundredths, as the code prints them with two decimals;
  errors of quantity parsing are not modelled. The API server may store a larger limit than it was sent.
- RightSizerController.PatchesBounded: is about runs in which no killed pod carries less than the limit tracked last; a lagging replica or a lowered limit is patched again.
- RightSizerController.LimitsAlongRun: the same runs.
- A panic of RemoveItems ends a run of the right-sizer; the slice header that RemoveItems reads without the lock is read whole.
- Report items are identified by kind, namespace, name and container, not by a formatted string.
- Image trust: construction of ImageTrustResult records from outcomes, classification of cosign's output, and keyless
  verifiers are answers of any form; the two-level theorem asks of them only that their observations carry their mode.
- WorkerPool.NeverStuck: a verifier that never answers would hold its slot; every verification is taken to end.
- Kyverno: parsing of YAML, leader election, dry run, and how kubectl resolves a kind; the listed kinds are those of the
  fixed list that the cluster has, and a policy whose spec is not a mapping, on which the code panics, is not modelled; several expected policies
  of one name are folded by the last one, as in the code.
- PolicySync.PolicySyncProcessor.ExecuteSyncActions: reports Applied and Removed; successful updates are reported nowhere in the code.
- Prometheus: floating point is replaced by reals, so rounding of large values is not modelled; the other resource folds of
  GetMetrics repeat the storage one; owners of series are left out.
- Storage.StorageInfo.AddPVCRef: int64 overflow of capacity totals is not modelled.
- Allocated.GetNodeAllocatedResources: the utilisation fractions (floating point) are left out, and quantities are integers of a smallest unit.
- UniqueFilename.UniqueFilename: a file system is the set of names for which Stat succeeds, and it does not change during the search.
- Plugins that are string plumbing or thin wrappers (event watchers, CI scanning, OPA, inventory formatting) would only add easy members.
