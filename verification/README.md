# Verified model of gpuid

gpuid is a Kubernetes controller. For every ready pod it reads the GPU serial numbers with
nvidia-smi, writes them as labels on the pod's node, and exports them to a backend. This
project models the parts of it that carry state or arithmetic and proves what they promise,
for all inputs and for all runs.

`dafny verify dfyconfig.toml` checks everything.

| file | models |
|---|---|
| `Text.dfy`, `Sorting.dfy` | Go's string order, `%d` and `%0wd`, `sort.Slice` and `sort.Strings` |
| `Sanitizer.dfy` | `sanitizeLabelValue` |
| `Grouping.dfy` | the grouping part of `GetSerialNumbers` |
| `Labels.dfy`, `LabelTheorems.dfy` | `calculateGPULabels` and what its result means |
| `Reconciler.dfy` | `needsLabelUpdate`, `attemptLabelUpdate`, `EnsureLabels`, and any number of reconcilers of one node |
| `UidCache.dfy` | `uidSet` |
| `WorkerProtocol.dfy` | informer, queue, workers, processed set and shutdown as a transition system |
| `WorkerTheorems.dfy` | what holds in every reachable state of it |
| `WorkerLoop.dfy` | `podReady`, `processPod`, `do`, `enqueueIfReady` and the end of `runController` and `Run` as code that takes steps of the transition system while the other goroutines act |
| `LabelledExports.dfy` | the process and the reconcilers of one node together: an export finds the node labelled |
| `Postgres.dfy`, `Export.dfy` | `Write` of the Postgres backend, `Export`, and what one batch holds |
| `ObjectKey.dfy` | `generateS3Key` |

## How the program is represented

* A Go map range visits keys in an arbitrary order: loops pick any remaining key. A Go sort
  is unstable: callers of `SortSlice` know only that the result is ordered and a permutation.
  The body given for it is one such sort, not the library's.
* Label maps are maps of strings. A label name is printed from a `Key` (`Render`); `Renders`
  relates a map of names to the map of keys it prints (`Printed`). `Resolve` turns an entry into label
  values (chassis sanitised; GPUs sorted, then sanitised), `LabelsOf` adds the labels of the
  resolved entries one after the other, and `Due` says, without any loop, which labels should
  be there.
* A patch is a map to optional strings; `None` is null and deletes (section 2 of RFC 7396 on a
  flat object, and the same under a strategic merge). Get and Patch are separate atomic steps.
  A failed Patch may have been applied or not. `Cluster` is one node with any number of
  reconcilers that desire the same labels and with foreign writers outside of the label
  namespace, as a transition system; `ApiServer` is the code's side of it: every call of a
  reconciler is a step of `Cluster`, and between two calls the others take any number of steps.
* `EnsureLabels` runs inside `wait.ExponentialBackoff` with five steps. Its waits of 2, 4, 8
  and 16 seconds stay under the 45 second cap, so the cap never shortens the five attempts.
* The transition system (`State`, `Event`, `Next`) gives every shared access of a worker its
  own step. `NextPc` is the control flow of `do` and `processPod`, `NextQueue` their queue
  calls, `NextLedger` their effect on the processed set and the counters; `History` only
  observes. The queue is the contract of the client-go rate-limiting queue: a key is held by
  one worker between Get and Done, an Add during processing makes the key dirty, an Add after
  shutdown is ignored, and the delay of AddRateLimited ends at an arbitrary time. Any key that
  Get may hand out is handed out. That a pod UID belongs to one namespace and name for ever is
  an assumption about Kubernetes (`home`).
* The main goroutine has a place of its own (`Control`): it serves until the signal, is in
  ShutDownWithDrain until it finds no key in processing, then in wg.Wait until the counter of the
  WaitGroup is zero, then returns to `Run`, whose deferred function closes the exporter. The
  counter starts at the number of workers and one for the informer, and falls when one of them
  ends. Close is enabled by this place alone; that no worker is left is proved from the counter.
* In `WorkerLoop` a `Controller` holds the variables of the program and, in `state`, the process
  as the transition system sees it. The code changes the variables and takes the matching step;
  `Others` is everybody else, who may take any steps between two of its own. `run` is the list of
  all steps, so what is proved of every run holds of the code (`OnRunMeansInv`).
* `LabelledExports` joins the two systems: the workers that are in `EnsureLabels` for a node are its
  reconcilers, and the Label step of such a worker is the return of its reconciler. The labels
  that the node should have are fixed, as they are when all pods of the node report the same
  pairs (`LabelsAreCanonical`).
* Lemmas named `...SpelledOut` say what the definitions come to, with names, characters, fields and
  numbers written out; `OnEntries` does so for whole label maps.
* Time is an integer in nanoseconds that does not go back. Calls into the cluster, the pod and
  the database end in any of their outcomes.
* The export time of a UID is the moment the backend has accepted the batch.

Where code and comments disagree, the code is modelled: the comment on `sanitizeLabelValue`
speaks of underscores and "unknown", the code writes "-" and "na"
(pkg/node/label.go:47-57). `seq<char>` stands for text that is valid UTF-8, on which byte
order and character order agree.

Every lemma carries `{:induction false}`, since Dafny would otherwise try an induction of its own
on any lemma whose parameters occur in recursive functions: all inductions are written out.

## Results that limit what the program does

* `LabelTheorems.ReportConservation` and `UnnamedChassisClash`: GPUs of chassis that have no usable
  serial number compete for the same label names, and only the last one in chassis order keeps
  each name. From the entries `("", ["A"])` and `("N/A", ["B"])` the program computes the single
  label `gpu-0 = B`. A report gets all its labels exactly when no two unusable chassis contend:
  two do if neither has a GPU without a serial number or both have more than one serial number.
* `Reconciler.DiffExactOnlyForOwned`: the diff is exact for precisely the desired maps whose
  names are in the namespace and whose values are not empty, which the computed maps are
  (`LabelsAreOwned`).
* `Export.PairsKeptExactlyWithNode`: an export that returns no error has written every pair with
  a serial exactly when the pod has a node name or there is no such pair. `processPod` does not
  reach the failing case, because a running pod has a node name.
* `Export.BatchIsComplete`: a GPU of a chassis without a serial number is labelled on the node but
  never exported, and the export reports success. A batch holds every reported GPU that has a
  serial number exactly when each of them sits in a chassis that has one.
* `WorkerTheorems.EmptyIdentifierCountsTwice`: an empty machine name is not an error to
  `processPod`, but the export then always fails, so one attempt counts as two failures.

## Model

| member | source | states |
|---|---|---|
| Text.LessOfConcat | pkg/exporters/s3/exporter.go:172-176 | texts with a first field of equal width compare by that field, then by the rest |
| Text.LessAtFirstDifference | pkg/node/label.go:208-216 | texts are ordered by the first position at which they differ: one ends there or has the smaller character |
| Text.DecimalInjective | pkg/node/label.go:258-261 | `%d` prints different indices differently |
| Text.DecimalIsCanonical | pkg/node/label.go:258-261 | `%d` prints digits that stand for the number, with no zero in front |
| Text.DigitsThenRest | pkg/node/label.go:236-261 | an index printed before a non-digit can be read back |
| Text.PaddedIsFixedWidth | pkg/exporters/s3/exporter.go:165-168 | `%0wd` of a number that fits has exactly w digits, the last w decimal digits |
| Text.PaddedIsCanonical | pkg/exporters/s3/exporter.go:165-168 | `%0wd` prints digits that stand for the number, w of them or as many as `%d` |
| Text.PaddedInjective | pkg/exporters/s3/exporter.go:165-170 | `%0wd` prints different numbers differently, also those wider than w |
| Text.FixedWidthOrder | pkg/exporters/s3/exporter.go:165-170 | zero padding makes string order numeric order and equality |
| Sorting.SortedPermutationUnique | pkg/node/label.go:208-216 | a multiset of comparable elements has one ordered arrangement, so an unstable sort cannot matter |
| Sorting.StrictArrangementUnique | pkg/gpu/gpu.go:58-74 | a set has one strictly ordered arrangement |
| Sorting.Sorted | pkg/node/label.go:247-249 | the reference sort returns an ordered permutation |
| Sorting.SortedIsUnique | pkg/node/label.go:249 | every ordered permutation is the reference sort |
| Sorting.SortSlice | pkg/node/label.go:208-216 | in place, the array becomes an ordered permutation of what it was |
| Sorting.SortStrings | pkg/gpu/gpu.go:71 | in place, the array becomes the reference sort of what it was |
| Sanitizer.SanitizeIsValid | pkg/node/label.go:49-78 | the result of sanitising matches the label value pattern, for every string |
| Sanitizer.SanitizeFixesExactlyValid | pkg/node/label.go:41-78 | exactly the valid values are left alone; sanitising twice is sanitising once |
| Sanitizer.SanitizeKeepsSpan | pkg/node/label.go:50-70 | the result is the text from the first to the last alphanumeric with other invalid characters turned into "-", or "na" when there is none or the text is "N/A" |
| Sanitizer.SanitizeSpelledOut | pkg/node/label.go:41-75 | between the first and the last letter or digit, ASCII letters, digits, '-', '_' and '.' stay and every other character becomes '-' |
| Sanitizer.SanitizeBetween | pkg/node/label.go:41-75 | the same for one character between two letters |
| Sanitizer.SanitizeOneCharacter | pkg/node/label.go:41-75 | a single character is kept if it is an ASCII letter or digit, and gives "na" otherwise |
| Sanitizer.SanitizeUnset | pkg/node/label.go:50-57 | an empty text and "N/A" give "na" |
| Sanitizer.BlankIsWhiteSpace | pkg/runner/export.go:130-140 | TrimSpace leaves nothing exactly of texts that are all Unicode white space |
| Sanitizer.RejectionUnreachable | pkg/node/label.go:72-77 | after trimming, the pattern check never rejects and TrimSpace changes nothing |
| Grouping.FillUnitMap | pkg/gpu/gpu.go:45-56 | the nested map records exactly the reported pairs |
| Grouping.SortedSerials | pkg/gpu/gpu.go:64-71 | the keys of a map, each once, in strict order, whatever the iteration order |
| Grouping.UnitFor | pkg/gpu/gpu.go:61-72 | a unit holds exactly the serials reported for its chassis |
| Grouping.GroupSerials | pkg/gpu/gpu.go:44-77 | each reported chassis has exactly one unit, holding exactly its serials in strict order |
| Grouping.SameUnits | pkg/gpu/gpu.go:58-74 | two groupings of one report hold the same units |
| Labels.RenderInjective | pkg/node/label.go:236-271 | a label name determines its kind, its chassis index and its GPU index |
| Labels.NamesSpelledOut | pkg/node/label.go:234-271 | the label names, letter by letter |
| Labels.RowsAreOrdered | pkg/node/label.go:208-216 | the comparison by chassis with nil last is a strict weak order |
| Labels.OrderSpelledOut | pkg/node/label.go:203-216 | a sorted arrangement holds the entries, chassis in the order of their names and nil entries last |
| Labels.RendersSize | pkg/node/label.go:236-271 | printing the names merges no two labels |
| Labels.CopyAndSortRows | pkg/node/label.go:203-216 | an ordered permutation of the entries, nil entries last |
| Labels.CopyAndSortGpus | pkg/node/label.go:246-249 | the reference sort of the serials |
| Labels.LabelGpus | pkg/node/label.go:251-265 | the inner loop adds the labels of the GPUs of one entry |
| Labels.LabelEntry | pkg/node/label.go:231-265 | one round adds the labels of one entry and reports whether its chassis counts |
| Labels.CalculateGPULabels | pkg/node/label.go:194-275 | the labels are those of some sorted arrangement of the entries |
| LabelTheorems.LabelsAreDue | pkg/node/label.go:218-272 | a label is present with a value if and only if it is due: chassis names, indices, count, and the last unnamed entry for each `gpu-j` |
| LabelTheorems.LabelsOnEntries | pkg/node/label.go:194-275 | which labels there are and with which values, on the entries as they come: sanitised chassis, sanitised serials by their sorted position, indices, count |
| LabelTheorems.LabelConservation | pkg/node/label.go:226-272 | at most one label per non-empty serial, named chassis and their count; equality exactly when no two unnamed entries have a serial at one position |
| LabelTheorems.UnnamedChassisClash | pkg/node/label.go:257-264 | from two raw entries with unusable chassis and one GPU each, every run computes the same single label |
| LabelTheorems.OrderIsStrict | pkg/node/label.go:208-216 | the sorted arrangement of a grouping has no ties |
| LabelTheorems.LabelsAreCanonical | pkg/node/label.go:194-275 | the labels are a function of the set of reported pairs alone |
| LabelTheorems.LabelTwice | pkg/runner/worker.go:145-165 | two runs from reports with the same pairs compute equal labels |
| LabelTheorems.LabelsAreOwned | pkg/node/label.go:234-272 | every computed label is in the namespace and has a non-empty value |
| LabelTheorems.CountsOfTidy | pkg/node/label.go:226-266 | over grouped units the loops count every serial and every usable chassis once |
| LabelTheorems.ContendIsSharing | pkg/node/label.go:251-265 | two unusable chassis of a report contend, by their sets of serials, exactly when some position holds a serial in both units |
| LabelTheorems.ReportConservation | pkg/node/label.go:194-275 | for every report: number of labels <= reported GPUs with a serial + usable chassis + 1 if there is one, with equality if and only if no two unusable chassis contend |
| Reconciler.NeedsLabelUpdate | pkg/node/label.go:277-296 | the loops decide whether a stale or a differing label exists, with missing keys read as "" |
| Reconciler.BuildPatch | pkg/node/label.go:161-174 | the loops build the patch that sets every desired label and nulls every stale one |
| Reconciler.AddStale | pkg/node/label.go:167-174 | the second loop adds exactly the nulls |
| Reconciler.DiffIsExact | pkg/node/label.go:277-296 | no update is needed if and only if the namespace part of the node equals the desired labels |
| Reconciler.DiffExactOnlyForOwned | pkg/node/label.go:288-293 | that equivalence holds for all nodes exactly when the desired labels are in the namespace with non-empty values |
| Reconciler.PatchLands | pkg/node/label.go:161-188 | a patch from an older snapshot brings the namespace part to the desired labels and keeps every other label as it is when the patch arrives |
| Reconciler.AttemptLabelUpdate | pkg/node/label.go:141-192 | one attempt is a run of the cluster, others' steps included: under interference and faults the namespace part ends as it was or as desired, and the reconciler where its verdict says |
| Reconciler.RetryLabelUpdate | pkg/node/label.go:110-135 | so is the retry loop: one to five attempts, each but the last ending in an error other than Forbidden and Invalid; it returns after a success, stops after Forbidden or Invalid, and times out after five other errors |
| Reconciler.OutcomeIsDecided | pkg/node/label.go:110-135 | the errors of the attempts decide the outcome: a timeout exactly if all five were other errors, a stop exactly if one was Forbidden or Invalid |
| Reconciler.EnsureLabels | pkg/node/label.go:106-136 | the same for the labels computed from the serials; they are in place when it returns without error |
| Reconciler.StepKeepsCoherent | pkg/node/label.go:141-192 | every step of every reconciler or foreign writer keeps the node free of mixed labels |
| Reconciler.RunKeepsCoherent | pkg/node/label.go:141-192 | so does every run from a coherent state, and the desired labels stay once in place |
| Reconciler.ReconcilersConverge | pkg/node/label.go:106-192 | from the start, for any interleaving of any number of reconcilers: initial or desired labels only, desired after the first applied patch or error-free return, and for ever after |
| Reconciler.AttemptsAreBounded | pkg/node/label.go:110-135 | no run lets a reconciler attempt more than five times, or at all after a fatal error |
| Reconciler.AttemptsAreExact | pkg/node/label.go:110-135 | in every run a reconciler has made exactly the attempts its place says; it times out after exactly five and stops only on Forbidden or Invalid |
| Reconciler.StepKeepsOthers | pkg/node/label.go:167-173 | only foreign writers change labels outside of the namespace |
| Reconciler.OthersAreKept | pkg/node/label.go:138-140 | over whole runs the other labels are what the foreign writers alone make them |
| Reconciler.OwnPartSpelledOut | pkg/node/label.go:167-173 | the program claims the labels whose names start with `gpuid.github.com`, whatever follows |
| UidCache.UidSet.Has | pkg/runner/setter.go:37-45 | true exactly when the latest addition is at most the TTL old |
| UidCache.UidSet.Add | pkg/runner/setter.go:48-52 | the history grows by one addition |
| UidCache.UidSet.Sweep | pkg/runner/setter.go:55-64 | deleting while ranging leaves exactly the live entries |
| UidCache.StoredIsLastAdded | pkg/runner/setter.go:48-64 | a stored time is the latest addition; a missing UID was never added or has expired |
| UidCache.HasIsRecentAdd | pkg/runner/setter.go:37-64 | the set answers as an append-only log of additions would |
| UidCache.RemembersThirtyMinutes | pkg/runner/setter.go:37-52 | a UID just added is found for thirty minutes and not a nanosecond longer |
| UidCache.SweepsAreInvisible | pkg/runner/setter.go:54-64 | histories with the same additions answer alike wherever their sweeps are |
| UidCache.AgeIsBounded | pkg/runner/setter.go:54-74 | nothing stored is older than the TTL after a sweep, or than TTL plus interval between regular sweeps |
| UidCache.NothingOlderThan35Minutes | pkg/runner/setter.go:54-74 | with a sweep every five minutes nothing stored is older than thirty-five minutes |
| UidCache.SizeIsBounded | pkg/runner/setter.go:54-74 | no more entries than additions in the last TTL plus interval |
| WorkerProtocol.PcFrame | pkg/runner/worker.go:55-102 | only Get picks up a key, only Done puts it down, and what a worker reads is the cached pod of its key |
| WorkerProtocol.QueueFrame | pkg/runner/worker.go:56-101 | what worker steps do to the queue |
| WorkerProtocol.StepKeepsExclusive | pkg/runner/worker.go:55-102 | every key in processing is held by exactly one worker, and what that worker read belongs to the key |
| WorkerTheorems.CarryMoves | pkg/runner/worker.go:62-101 | a worker that carries a wanted pod goes on carrying it, hands it to the delay, or records it |
| WorkerTheorems.StepKeepsNoLoss | pkg/runner/service.go:264-293 | no step loses a ready pod that was never recorded |
| WorkerTheorems.NoLostWork | pkg/runner/worker.go:55-102 | in every reachable state before cancellation such a pod has a notification to come, is dirty, is delayed, or is carried by a worker |
| WorkerTheorems.StepKeepsRemembered | pkg/runner/setter.go:37-64 | the processed set holds the latest additions save for expired ones |
| WorkerTheorems.UidIsExclusive | pkg/runner/worker.go:55-63 | no two workers are at work on one UID |
| WorkerTheorems.CheckIsLate | pkg/runner/worker.go:121-125 | a pod that passes the check was last exported more than the TTL ago |
| WorkerTheorems.StepKeepsSpaced | pkg/runner/worker.go:198-212 | every export is recorded or about to be, and exports of one UID stay more than the TTL apart |
| WorkerTheorems.OneExportPerWindow | pkg/runner/worker.go:121-212 | in every run, two successful exports of one UID are more than the TTL apart |
| WorkerTheorems.LimiterTracks | pkg/runner/worker.go:92-100 | the limiter count follows the current streak of transient failures |
| WorkerTheorems.StepKeepsTallied | pkg/runner/worker.go:145-212 | every step keeps the counters balanced |
| WorkerTheorems.MetricsConservation | pkg/runner/worker.go:92-212 | successes = exports; additions = successes + empty reads; failures = rate-limited retries + attempts with an empty machine name; with the work in progress on the books |
| WorkerTheorems.CountersCountEvents | pkg/runner/worker.go:145-212 | over any run the counters grow by the successful exports, and by the failed reads, labellings, lookups and exports and the empty machine names, and by nothing else |
| WorkerTheorems.EmptyIdentifierCountsTwice | pkg/runner/worker.go:188-208 | whatever the others do in between, the next step of an attempt with an empty machine name is a failed export, the second failure it counts, and it is retried |
| WorkerTheorems.WorkersFollowTheWay | pkg/runner/worker.go:62-221 | in every run the place of a worker tells what it has done with its key, step by step: only ready pods pass the check, reads precede labels precede lookups precede exports precede records, and exactly the failures of these are retried |
| WorkerTheorems.StepKeepsDrained | pkg/runner/service.go:319-324 | workers exit only during shutdown, and the last one leaves no dirty key |
| WorkerTheorems.StepKeepsCounted | pkg/runner/service.go:295-324 | every step keeps the WaitGroup equal to the goroutines that have not ended, and zero once wg.Wait has returned |
| WorkerTheorems.WaitGroupIsExact | pkg/runner/service.go:295-324 | in every reachable state the WaitGroup counts them, and is zero exactly when informer and workers have ended |
| WorkerTheorems.RunKeepsInv | pkg/runner/worker.go:41-222 | all invariants hold after every run |
| WorkerTheorems.ShutdownStep | pkg/runner/service.go:319-324 | after shutdown every Get and Done lowers 2·dirty + processing by one, and every step of the program lowers the work remaining |
| WorkerTheorems.ShutdownTerminates | pkg/runner/service.go:319-327 | after shutdown the program takes no more steps than the work remaining at that moment |
| WorkerTheorems.WorkerStep | pkg/runner/worker.go:55-60 | after shutdown a worker that has not exited can take a step |
| WorkerTheorems.ShutdownProgress | pkg/runner/service.go:319-327 | after shutdown some goroutine can take a step until the exporter is closed: ShutDownWithDrain and wg.Wait do not wait for ever |
| WorkerTheorems.ClosedWhenDrained | pkg/runner/service.go:319-327 | when the exporter is closed the informer and all workers have ended, by the count of the WaitGroup, and no key is dirty or in processing |
| WorkerTheorems.NoExportAfterClose | pkg/runner/service.go:81-88 | in every run, no worker step and no export comes after the close |
| WorkerTheorems.OwedIsConcluded | pkg/runner/worker.go:62-101 | a key that waits or is worked on stays so until a Forget or AddRateLimited for it |
| WorkerTheorems.DrainConcludes | pkg/runner/service.go:319-327 | every key that waits or is worked on at any time of a run that reaches the close has had its Forget or AddRateLimited before the close |
| LabelledExports.RunOfProcess | pkg/runner/worker.go:105-222 | a run of process and node together is a run of the process |
| LabelledExports.RunKeepsInv | pkg/runner/worker.go:165-174 | after every such run, a worker that has labelled the node has left it with the desired labels |
| LabelledExports.ExportsAreLabelled | pkg/runner/worker.go:165-212 | whenever a worker may export the serials of a pod, or just has, the program's labels on the pod's node are exactly the desired ones, and stay so whatever others do |
| LabelledExports.LabelingGoesOn | pkg/node/label.go:110-135 | a worker in `EnsureLabels` can always make a call or return |
| WorkerLoop.PodReady | pkg/runner/worker.go:226-243 | ready means running, a status for every container, and no status that is not ready |
| WorkerLoop.CallExporter | pkg/runner/worker.go:198-206 | an export of serials that returns no error was given a machine name that is not blank, whatever the backend |
| WorkerLoop.ProcessPod | pkg/runner/worker.go:105-222 | with any steps of the others in between, `processPod` is a run that brings its worker from the pod it has read to the end its result names |
| WorkerLoop.HandleItem | pkg/runner/worker.go:62-101 | under the same interference, one item takes its worker from the key back to Get |
| WorkerLoop.DoRounds | pkg/runner/worker.go:55-103 | any number of rounds of the loop, at any time, is a run that leaves the worker at Get or returned |
| WorkerLoop.Do | pkg/runner/worker.go:55-103 | from shutdown on the loop returns, whatever the others do |
| WorkerLoop.EnqueueIfReady | pkg/runner/service.go:264-284 | the handler queues the key of a ready pod and nothing else |
| WorkerLoop.ShutDownWithDrain | pkg/runner/service.go:319-322 | waits while a key is in processing, and returns |
| WorkerLoop.WaitForAll | pkg/runner/service.go:324 | waits while the WaitGroup is not zero, and returns |
| WorkerLoop.FinishController | pkg/runner/service.go:319-327 | from the signal on, wherever the workers are and whatever they do, the main goroutine comes to close the exporter, with all goroutines ended and the queue empty |
| WorkerLoop.CodeKeepsCounts | pkg/runner/worker.go:92-212 | the counters and the limiter of the code add up, and its exports of one UID are more than the TTL apart |
| Postgres.CopyAndCommit | pkg/exporters/postgres/exporter.go:141-181 | committed means the table grew by the rows in order; not committed means it did not change |
| Postgres.Write | pkg/exporters/postgres/exporter.go:118-189 | all of the batch or nothing, for a failure at any call, and no transaction left open |
| Postgres.RowsAreTheRecords | pkg/exporters/postgres/exporter.go:138-167 | the rows are the records that are not nil, in their order, column by column, with "unknown" for an empty chassis |
| Postgres.RowsReadBack | pkg/exporters/postgres/exporter.go:138-167 | the columns of records with a chassis, read back, are the records |
| Postgres.UniqueColumnsSpelledOut | pkg/exporters/postgres/exporter.go:229 | the constraint compares all columns but the time of creation |
| Export.AppendGroup | pkg/runner/export.go:164-183 | the inner loop appends the valid records of one group |
| Export.BuildRecords | pkg/runner/export.go:155-184 | the loops build the valid records of all groups that have a chassis |
| Export.Export | pkg/runner/export.go:121-201 | a missing backend, a cluster or machine that is empty or white space, and a missing pod are refused with their errors; any backend is given no batch or one, of exactly the valid records; which rows it adds to a Postgres table, and that it adds none when it fails |
| Export.RecordsSpelledOut | pkg/runner/export.go:165-173 | each record of a batch has the cluster, the pod's node, the machine, namespace/name, its pair, and the time read for it |
| Export.ExportedRowsSpelledOut | pkg/runner/export.go:165-173 | so has each row an export adds to a Postgres table |
| Export.ValidateSpelledOut | pkg/gpu/types.go:33-53 | a record is valid exactly if cluster, node, machine, source, GPU and time are filled in |
| Export.RecordsKeepPairs | pkg/gpu/types.go:33-53 | with the other fields filled in, exactly the pairs with a serial survive validation, in order |
| Export.PairsKeptExactlyWithNode | pkg/gpu/types.go:33-53 | with cluster, machine and clock in order, the batch holds every pair with a serial if and only if the pod has a node name or there is no such pair |
| Export.BatchConservation | pkg/runner/export.go:156-184 | one batch holds each reported pair with both parts exactly once and nothing else, in order |
| Export.BatchIsComplete | pkg/runner/export.go:158-162 | the batch holds every reported GPU with a serial if and only if each of their chassis has one |
| Export.BatchRowsAreUnique | pkg/exporters/postgres/exporter.go:229 | two rows of a batch differ in chassis or GPU, hence on the UNIQUE columns |
| ObjectKey.ReplaceAllIsSubstitute | pkg/exporters/s3/exporter.go:165-168 | one ReplaceAll is a substitution of one placeholder |
| ObjectKey.TwoRounds | pkg/exporters/s3/exporter.go:164-168 | substituting digits in two rounds is substituting at once, for every text |
| ObjectKey.ReplaceEachIsSubstitute | pkg/exporters/s3/exporter.go:164-168 | any sequence of replacements with distinct placeholders is one simultaneous substitution |
| ObjectKey.PartitionIsSubstitute | pkg/exporters/s3/exporter.go:158-168 | the four replacements are one left-to-right substitution, for every pattern and time |
| ObjectKey.PartitionInAnyOrder | pkg/exporters/s3/exporter.go:164-168 | in whatever order they are made |
| ObjectKey.PrintOrder | pkg/exporters/s3/exporter.go:165-170 | printing with fixed widths keeps order and tells numbers apart |
| ObjectKey.KeyInjective | pkg/exporters/s3/exporter.go:158-177 | for one exporter and every year from 0 on, keys are equal exactly when year, month, day, hour, minute, second and whole millisecond are |
| ObjectKey.DefaultPartition | pkg/exporters/s3/exporter.go:160-168 | the partition under the default pattern, spelled out |
| ObjectKey.KeyOrder | pkg/exporters/s3/exporter.go:158-177 | under the default pattern string order of keys is chronological order, for years 0 to 9999 |
| ObjectKey.FileNameSpelledOut | pkg/exporters/s3/exporter.go:170 | the file name, field by field, with the digits of each field and the milliseconds cut off |
| ObjectKey.PartitionSpelledOut | pkg/exporters/s3/exporter.go:160-168 | the default partition, field by field |
| ObjectKey.KeySpelledOut | pkg/exporters/s3/exporter.go:172-177 | prefix, partition and file name with a '/' between them, and none in front without a prefix |
| ObjectKey.PlaceholdersSpelledOut | pkg/exporters/s3/exporter.go:165-168 | what each placeholder stands for |
| ObjectKey.PlainPattern | pkg/exporters/s3/exporter.go:165-168 | a pattern without placeholders is left as it is |

## Left out

- WorkerLoop.Do: states termination from shutdown on; before that Get may block for ever, and `DoRounds` covers any number of rounds.
- WorkerLoop.FinishController: starts when the signal has come, after the workers have been started; the path on which the informer cache never syncs has no workers and is not modelled.
- WorkerLoop.ShutDownWithDrain: that a goroutine which can go on does so while the main goroutine waits is the fairness of the scheduler, and is assumed.
- Postgres.Write: other transactions on the same table are not interleaved; a violated UNIQUE constraint is one of the failures of flush or commit.
- The stdout, HTTP and S3 backends are thin wrappers around library calls: a backend other than Postgres accepts a batch or fails.
- WorkerTheorems.ClosedWhenDrained: holds for the path without leader election; with it, the program does not wait for the controller before it closes the exporter.
- Leader election, command options, logging, the HTTP server and client setup: library code or flat checks.
- Pod exec and nvidia-smi parsing: the model starts from the (chassis, serial) pairs they yield.
- `parseNodeInfo`: the machine name is an arbitrary string that may be empty.
- Malformed cache keys and foreign objects in the cache (pkg/runner/worker.go:65-90): the cache holds pods under the keys that `MetaNamespaceKeyFunc` makes.
- The waits of the backoff and the per-pod timeout: only the number of attempts is modelled.
- Reconcilers of one node that desire different labels: nothing is claimed about them, nor about the labels at an export then.
- CSV encoding and the upload itself in the S3 backend.
