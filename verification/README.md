# Verified model of krkn's rollback, monitoring and scoring logic

Krkn runs fault scenarios against a cluster. It must undo them, watch the system while they run,
and score the result. This project models the code that carries those promises and proves them in
Dafny 4.11. `dafny verify dfyconfig.toml` checks everything.

The outside world is arbitrary throughout: cluster answers, exceptions, clocks, the order in which
a directory lists, random picks, the thread schedule, and the moment at which a signal arrives are
nondeterministic choices or unconstrained parameters, such as a function that says what the n-th
command gives. Floating-point expressions are read as exact real arithmetic.

| file | what it is about |
|---|---|
| `Options.dfy` | optional values |
| `Text.dfy` | strings as the parsers use them: split, rsplit, join, decimal numbers |
| `Lists.dfy`, `Reals.dfy` | removing from Python lists and dictionaries; order and multiplication of reals |
| `Versions.dfy` | the names of rollback version files and context directories: printer, validators, sort key |
| `Search.dfy` | finding version files, newest first, ties stable |
| `Journal.dfy` | the store of version files: registering, executing and marking, cleaning up |
| `Listings.dfy` | the order of a search over every order in which the system may list the store |
| `Recovery.dfy` | any number of rollback runs over one store, each of which may fail part-way |
| `Registrations.dfy` | series of registrations in one process: what they leave, and in which order it is undone |
| `Driver.dfy` | the handler of a scenario, and the scenario loop that decides between cleanup and rollback: what becomes of a registered callable |
| `Signals.dfy` | signal contexts, the rollback lock and handler registration, one field access per step |
| `VirtTracker.dfy` | the VM monitor's worker: checks compressed into periods |
| `Batches.dfy` | slicing the VMs over threads; gathering the post-run results under any schedule |
| `Monitors.dfy` | main loop against monitor threads: iterate, stop, join, drain |
| `HttpTracker.dfy` | the HTTP monitor: periods and the return value |
| `LoadMetrics.dfy` | aggregating load metrics of several pods |
| `JobWait.dfy`, `Containers.dfy`, `Triggers.dfy`, `Throttle.dfy` | polling and selection loops; I/O limits under exceptions |
| `Score.dfy` | the verdict on an SLO query, the score of a scenario, which weights keep it in range |
| `Resiliency.dfy` | the alert file, scenario reports, the weighted final score |
| `Labels.dfy` | the three forms of an exclude label |

Code that updates fields or lists in loops is written as classes and methods, each proved against
a specification function; what the code promises is proved about those functions. What the results
hold is stated field by field in terms of the inputs alone, without those functions: `PublishedRecords`
(both monitors), `FailuresAreReported`, `AggregateOfOne` and `AggregateOfTwo`, `RangeVerdict` and
`InstantVerdict`, `SlosAreAlerts` and `ObjectOfSlo`, `ReportedStatus`, `FailedAreListed` and
`RegisteredIsUndone`, and the contracts of `AwaitTriggers` and `ContainerKillingInPod`. The concurrent
parts (`signal.py`, the join-and-drain protocol, the post-run gathering) are step relations over
explicit states: `Signals.Step`, `Monitors.Next` and `Batches.GatherNext` take one atomic access
each, and `Run` or `Play` strings steps together in every possible order.

## What the proofs brought to light

The code is modelled as it is. Where it does less than its documentation or a natural reading
promises, the exact condition is proved.

- **Signal contexts and foreign exceptions.** Under every placement and nesting of signals a rollback
  only runs with a pair that one `signal_context` supplied, and no saved original handler is krkn's
  own, as long as no foreign exception (a `KeyboardInterrupt` of another handler, say) strikes inside
  the entry, exit or registration code of `signal_context`, which no `try` covers. The history flags
  `cutContext` (a scenario type and a telemetry object were left behind) and `cutRegistration`
  (handlers were installed but not declared so) are set by exactly such strikes, and each guards one
  guarantee. Both conditions are needed, in runs of a fresh process: `CutExitRollsBackUnsupplied`
  reaches a rollback with a pair that nobody supplied, and after `CutRegistrationChainsToItself` the
  saved originals are krkn's handler for exactly the signals the cut registration had installed. Even
  then a handler activation ends after fifteen steps at most (`HandlerActivationEnds`).
- **One version file per process, type and context.** `Version`'s defaults are evaluated when the
  class is defined (config.py:272-273), so registrations of one context and type share a file
  (`TargetIsFile`) and only the last that opened it counts (`LastRegistrationWins`), although the
  docstrings speak of the current timestamp and a random suffix. Opening empties the file: a
  registration whose write fails destroys the one before it.
- **No newest-first inside a process.** For the same reason all files of a process have the same sort
  key (`OneKeyPerProcess`) and are undone in listing order (`OneProcessIsListingOrder`), although
  config.py:264 promises last in, first out. In whatever order the system lists the store, the newest
  registration comes first if and only if each pending file was registered under a later timestamp
  than the one before (`NewestRegistrationFirstIff`, a condition on the names alone); for the files of
  one process, if and only if one is pending at most (`OneProcessNewestFirstIff`). `OldestFirst` is a
  run that fails: two targets registered by one process, undone oldest first. A later call resumes in
  the order of an earlier one under the same condition on what is left (`ResumesWhereItStopped`).
- **A failed rename repeats a rollback.** A callable that has returned runs again in the next call if
  and only if its file could not be renamed (`RunsAgainIffNotRenamed`), and in any later one if and
  only if it has not been marked in between (`RunsAgainUnlessMarked`).
- **A later success deletes an earlier failure's rollback.** With automatic rollback off, a rollback that
  a failed scenario left survives if and only if no later one of the same run and type succeeds
  (`RollbackSurvivesIff`); `LaterSuccessDeletes` is a run in which one goes.
- **HTTP monitor.** The response that closes a period opens none, so it is in no record and cannot
  set the return value; `ReturnValue` gives the exact condition under which the return value is 3.
- **Interrupted throttling.** The undo in `run` is only armed after the application has completed;
  `InterruptedApply` says exactly when an interrupted one leaves no limits behind.
- **Scores.** Weights of any sign are accepted. All outcomes score within 0..100 if and only if the
  weights balance, which can be checked on the alert file (`InRangeIffBalanced`, for a scenario
  `ScenarioScoreRange` and `UnbalancedLeavesRange`). A missing SLO result is skipped
  (`MissingResultIsSkipped`), although the docstring (score.py:52-53) says it counts as failed.
- **Exclude labels.** A list of selectors and the line made of them agree if and only if no selector
  has a key of white space beside a value that is not (`ListAndLineAgreeIff`); a bar gets into a label
  value if and only if the value is nothing but bars and white space (`BarsAreTakenWhole`).

One such condition is met: the driver rolls back under `get_scenario_types()[0]`, while the handler
registers under its own `scenario_type`, and a file is covered exactly when the two are equal
(`CoveredIffSameType`). They are: each of the nine plugins that register a rollback
has one type, its handler's, and the only plugin with two (native_scenario_plugin.py:46-48) registers
none.

## Model

| member | source | states |
|---|---|---|
| Versions.VersionFormatMeansShape | krkn/rollback/config.py:139-175 | the validator accepts a name if and only if it reads `<type>_<digits>_<8 alphanumerics>.py` and the type is not filtered out |
| Versions.ReadingIsUnique | krkn/rollback/config.py:161-164 | a name has one reading at most, whatever underscores the type contains |
| Versions.VersionRoundTrip | krkn/rollback/config.py:276-281 | a printed version name is accepted for its own type and no other nonempty one, and decodes to its timestamp |
| Versions.FileNameInjective | krkn/rollback/config.py:276-281 | two well-formed versions with one name are the same version |
| Versions.SortKeyIsValidatedTimestamp | krkn/rollback/config.py:257-263 | the key read with rsplit is the timestamp the validator read with split |
| Versions.ContextFormatMeansShape | krkn/rollback/config.py:178-205 | a directory is accepted if and only if it reads `<digits>-<uuid>` for an unfiltered uuid, dashes in the uuid included |
| Versions.ContextRoundTrip | krkn/rollback/config.py:88-89 | a printed context directory decodes to its timestamp and uuid and is accepted for no other nonempty uuid |
| Versions.ExecutedIsNeverPending | krkn/rollback/handler.py:190-191 | a name carrying the executed mark is accepted by no search |
| Search.SearchVersionFiles | krkn/rollback/config.py:208-266 | the loops and the sort return what `Result` says of the listing: nothing without the directory, an error when a plain file has a context name, else the sorted accepted files |
| Search.SortIsStable | krkn/rollback/config.py:265 | the sort gives a permutation, newest first, equal timestamps in listing order |
| Search.StableOrderIsUnique | krkn/rollback/config.py:265 | no other list is in that order |
| Search.SearchFinds | krkn/rollback/config.py:225-266 | every file on disk that passes both filters is returned exactly once and no other, in the one possible order |
| Journal.SearchIsPending | krkn/rollback/config.py:208-266 | searching any listing of a store gives exactly its pending files, or raises exactly when a plain file has a context name |
| Journal.VersionStore.Find | krkn/rollback/config.py:208-266 | a search of the store, in whatever order the system lists it, finds the pending files newest first |
| Journal.VersionStore.ExecuteRollback | krkn/rollback/handler.py:137-195 | for every outcome of callables and renames: the marked files are the prefix of the pending ones, newest first, whose callable returned and whose rename worked; it stops at the first that did not, and nothing else changes |
| Journal.VersionStore.Cleanup | krkn/rollback/handler.py:197-220 | removes only pending files of this run and type, and all of them if and only if the search works and each can be removed |
| Journal.VersionStore.Serialize | krkn/rollback/serialization.py:102-136 | writes under the process-wide version name of the type in the context directory; raising before the open changes no file, raising during the write leaves a torn one; the folder that each outcome leaves |
| Journal.ExecutedDisjoint | krkn/rollback/handler.py:190-191 | marked names never qualify for a search, and two files never share a mark |
| Journal.MarkAllPending | krkn/rollback/handler.py:187-195 | marking takes exactly the marked files off the pending set of any run and type |
| Journal.MarkAllFrame | krkn/rollback/handler.py:187-195 | paths that are neither marked nor marks keep their state |
| Journal.MarkAllMoves | krkn/rollback/handler.py:187-195 | marking moves each file's content to its mark and loses none |
| Listings.EveryListingGivesIff | krkn/rollback/config.py:225-266 | all orders in which the system may list a store give the search one order if and only if its timestamps fall strictly |
| Recovery.AttemptEffect | krkn/rollback/handler.py:155-195 | one call runs only pending files, marks a prefix of those that returned, and leaves exactly the rest pending; after a clean call none is |
| Recovery.CrashResume | krkn/rollback/handler.py:155-195 | over any number of failing calls: nothing marked ever runs again, nothing unmarked is forgotten, and a clean call has finished the initial set |
| Recovery.ContentSurvives | krkn/rollback/handler.py:155-195 | at every point of such a history each initial rollback is either still pending or under its mark, with its content |
| Recovery.LaterCallFinds | krkn/rollback/handler.py:155-195 | any later call finds exactly what an earlier one found and nothing has marked since; in the same order if and only if its listing keeps files of equal timestamps in the order they had |
| Recovery.ResumesWhereItStopped | krkn/rollback/handler.py:155-195 | any later call, in whatever order the system lists the store, takes up the unmarked rest in its old order if and only if no two of its timestamps are equal |
| Recovery.RunsAgainUnlessMarked | krkn/rollback/handler.py:155-195 | a callable that has returned runs again in any later call if and only if its file has not been marked in between |
| Recovery.RunsAgainIffNotRenamed | krkn/rollback/handler.py:177-195 | the next call runs again exactly the returned callable whose rename raised |
| Registrations.TargetIsFile | krkn/rollback/config.py:268-301 | two registrations of a process share a file if and only if they agree on context and type |
| Registrations.LastRegistrationWins | krkn/rollback/config.py:268-301 | after any series over any contexts and types a file holds what the last registration that opened it left, all of its content or a prefix of the torn length; an earlier one survives if and only if there is no later one or it left equal content |
| Registrations.RegistrationsElsewhere | krkn/rollback/serialization.py:124-136 | a series changes no other file |
| Registrations.OneKeyPerProcess | krkn/rollback/config.py:272-273 | all files of a process have one sort key, whatever their contexts and types |
| Registrations.WrittenOrderEnumerates | krkn/rollback/config.py:268-301 | the order of registration stays an enumeration of the store through any series of registrations |
| Registrations.NewestRegistrationFirstIff | krkn/rollback/config.py:264-266 | over all listings of a store, a search gives the pending files newest registration first if and only if their timestamps rise strictly along the registrations |
| Registrations.OneProcessNewestFirstIff | krkn/rollback/config.py:264-266 | for the files one process registered that means: one pending file at most |
| Registrations.OldestFirst | krkn/rollback/config.py:264-266 | a failing run: two registrations of one type in two contexts of one process, found oldest first in one of the listings |
| Registrations.OneProcessIsListingOrder | krkn/rollback/config.py:264-266 | files of one process are processed in plain listing order |
| Driver.RollbackHandler.SetRollbackCallable | krkn/rollback/handler.py:253-280 | registers under the handler's own type in the current context, with every way the serializer can fail and the folder it leaves; never raises |
| Driver.CoveredIffSameType | krkn/scenario_plugins/abstract_scenario_plugin.py:139-146 | the driver's run and type find a registered file if and only if the types are equal |
| Driver.RegistrationStaysInside | krkn/rollback/config.py:276-290 | a registration touches only a file of its own run and type |
| Driver.AttemptStaysInside | krkn/rollback/handler.py:155-195 | a rollback call touches no file of another run or type |
| Driver.OthersUntouched | krkn/rollback/config.py:276-290 | so version files of another run, or of a type that is neither the driver's nor the handler's, stay as they are |
| Driver.ScenarioPlugin.Run | krkn/rollback/handler.py:63-87 | performs the given registrations, and rollbacks by a signal that interrupts it, one after another; only its own run and types are touched and the context is cleared at the end |
| Driver.ScenarioPlugin.SignalUndoes | krkn/rollback/signal.py:61-73 | a signal right after a registration, with automatic rollback on and nothing raising, leaves its content under the mark |
| Driver.ScenarioPlugin.RegisteredWithoutRun | krkn/rollback/handler.py:68-72 | registered without a run the file lies in the directory `None` and is pending for no run and type |
| Driver.ScenarioPlugin.RunOne | krkn/scenario_plugins/abstract_scenario_plugin.py:113-147 | a `run` that returned 0 leads to the removal of every pending file of the run and type, any other end rolls all back (automatic rollback on) or changes nothing (off); it leaves the loop only if something raises, and how it leaves the store then |
| Driver.ScenarioPlugin.SettledMeansNonePending | krkn/scenario_plugins/abstract_scenario_plugin.py:139-146 | after status 0, or another one with automatic rollback on and clean, nothing of that run and type is pending |
| Driver.ScenarioPlugin.ReportedStatus | krkn/scenario_plugins/abstract_scenario_plugin.py:132-148 | in every record of the loop an entry has exit status 0 if and only if its file exists and `run` returned 0; another returned code is passed on, an exception or a missing file counts as 1 |
| Driver.ScenarioPlugin.FailedAreListed | krkn/scenario_plugins/abstract_scenario_plugin.py:84-109 | the failed list is, in order, exactly the entries that did not return 0 |
| Driver.ScenarioPlugin.FailureLosesNothing | krkn/scenario_plugins/abstract_scenario_plugin.py:139-146 | after an entry that did not return 0, each file pending right after its run is still pending (automatic rollback off) or executed and under its mark with its content (on) |
| Driver.ScenarioPlugin.SuccessCleansUp | krkn/scenario_plugins/abstract_scenario_plugin.py:139-142 | after one that did, exactly the files pending right after its run are gone |
| Driver.ScenarioPlugin.RegisteredIsUndone | krkn/scenario_plugins/abstract_scenario_plugin.py:113-146 | from the registration to the store after the entry: the callable registered last is removed on return of 0, else executed and marked, or still pending with automatic rollback off |
| Driver.ScenarioPlugin.RegisteredSurvivesCut | krkn/scenario_plugins/abstract_scenario_plugin.py:113-146 | if an exception leaves the loop during an entry that did not return 0, its content is still in its file or under its mark |
| Driver.ScenarioPlugin.RunScenarios | krkn/scenario_plugins/abstract_scenario_plugin.py:78-191 | for any list and any outcomes: exit status and telemetry of every processed entry, how each one changes the store, no foreign file touched; the failed list and the sub-list that ended the loop; without a raise all entries up to the first sub-list are processed, with one the store is as after the last record or as a cut entry leaves it |
| Driver.ScenarioPlugin.NonePendingAfter | krkn/scenario_plugins/abstract_scenario_plugin.py:139-146 | in every record of the loop nothing of the run and type is pending after an entry of status 0, or of any status with automatic rollback on |
| Driver.ScenarioPlugin.RollbackSurvivesIff | krkn/scenario_plugins/abstract_scenario_plugin.py:139-146 | with automatic rollback off, a pending rollback stays pending through later entries if and only if none of them succeeds |
| Driver.ScenarioPlugin.LaterSuccessDeletes | krkn/scenario_plugins/abstract_scenario_plugin.py:139-146 | a recorded list of two: the rollback registered by the first, which fails, is pending after it and gone after the second, which succeeds |
| Signals.StepInv | krkn/rollback/signal.py:36-122 | every step of every thread keeps the invariant on fields, frames, lock, saved handlers and history |
| Signals.AtMostOneInside | krkn/rollback/signal.py:61-73 | in every reachable state one frame at most is inside the rollback section or registration, and the lock is free if and only if none is |
| Signals.OnlySuppliedPairs | krkn/rollback/signal.py:36-73 | every rollback ran with a pair one context supplied, unless a foreign exception has cut a context and left its type and telemetry object |
| Signals.OriginalsAreForeign | krkn/rollback/signal.py:91-110 | no saved original is the handler itself, unless one has cut a registration that had begun to install |
| Signals.RollbackWithinContext | krkn/rollback/signal.py:112-122 | a frame about to roll back holds the pair of the context its thread has open |
| Signals.ContextRegisters | krkn/rollback/signal.py:91-122 | an undisturbed context in a fresh process, whichever handlers cannot be set: krkn's handler is then in place of exactly the others, with what was there before as their originals, the lock is free and the context cleared |
| Signals.ContextAfterRegistration | krkn/rollback/signal.py:91-122 | later contexts change no handler |
| Signals.HandlerRuns | krkn/rollback/signal.py:52-73 | a handler that finds a complete context and the lock free rolls back its pair once, clears the context and frees the lock, whether the rollback raises or not |
| Signals.HandlerChains | krkn/rollback/signal.py:75-88 | then a default original is put back and ends the process, krkn's own begins anew, and with any other or none the handler returns |
| Signals.ExceptionEnds | krkn/rollback/signal.py:63-85 | an exception of the rollback or of a foreign original ends at an older handler that is calling a foreign original, at the scenario, or leaves a context being opened or closed |
| Signals.TakenOver | krkn/rollback/signal.py:91-106 | a signal that other code has taken over runs no handler of krkn's |
| Signals.HandlerNeverBlocks | krkn/rollback/signal.py:52-88 | a running handler can always take its next step |
| Signals.HandlerActivationEnds | krkn/rollback/signal.py:52-88 | in every reachable state, self-chaining included, it has fifteen steps of its own left at most: each ends it or lowers its rank, and no step of any thread raises it |
| Signals.NoDeadlock | krkn/rollback/signal.py:61-110 | in every reachable state each thread can go on, or awaits the lock for a registration while another thread holds it and can go on |
| Signals.CutIsRecorded | krkn/rollback/signal.py:112-122 | a cut raises the flag of the guarantee on pairs if and only if it leaves a type and a telemetry object |
| Signals.CutMixesPairs | krkn/rollback/signal.py:112-122 | after a cut anywhere, a signal between the next context's first two writes rolls back new uuid with old type if and only if a type and a telemetry object were left behind and the new uuid is not empty; else it does nothing |
| Signals.CutExitRollsBackUnsupplied | krkn/rollback/signal.py:112-122 | a run of a fresh process in which that happens; the pair is one that nobody supplied unless the two contexts agree on run or type |
| Signals.CutRegistrationChainsToItself | krkn/rollback/signal.py:91-110 | in a fresh process whose first registration is cut after any number of steps, the next one saves krkn's handler as the original of exactly the signals the cut one had installed |
| VirtTracker.ComputeCheckType | krkn/health_checks/virt_health_check_plugin.py:329-343 | the discriminator tells the two check results apart |
| VirtTracker.RunsAreMaximal | krkn/health_checks/virt_health_check_plugin.py:402-482 | the reference cut: the checks of a VM split into nonempty stretches of one status, neighbours differing |
| VirtTracker.MaximalIsUnique | krkn/health_checks/virt_health_check_plugin.py:402-482 | there is only one such cut |
| VirtTracker.Worker.CloseTrackerEntry | krkn/health_checks/virt_health_check_plugin.py:455-482 | appends the stamped record unless only failures count and it is healthy, and removes the entry exactly on request |
| VirtTracker.Worker.Check | krkn/health_checks/virt_health_check_plugin.py:411-439 | one check turns the tracker into `Observe` of it: open, close and reopen, or nothing |
| VirtTracker.Worker.CloseAll | krkn/health_checks/virt_health_check_plugin.py:443-448 | adds one final record per open entry, in insertion order |
| VirtTracker.Worker.RunVirtCheckBatch | krkn/health_checks/virt_health_check_plugin.py:389-453 | the whole loop, for any rounds of checks, publishes `Published` of all checks |
| VirtTracker.TrackIsEncoding | krkn/health_checks/virt_health_check_plugin.py:411-439 | at every moment a VM's closed records and open entry are those of the maximal runs of its own checks |
| VirtTracker.PublishedIsEncoding | krkn/health_checks/virt_health_check_plugin.py:402-482 | the published records of a VM are exactly the periods of its maximal runs, however the VMs interleave |
| VirtTracker.PublishedRecords | krkn/health_checks/virt_health_check_plugin.py:402-482 | field by field: the record of each run of checks has its two statuses, check type, node, the address of the check that ended it if it had one, and its start, end and duration; with only_failures those whose SSH or readiness check failed are published and no others |
| VirtTracker.OnlyFailuresPublished | krkn/health_checks/virt_health_check_plugin.py:479-480 | a record is published with only_failures if and only if it is without and SSH or readiness is false in it |
| VirtTracker.OnePeriodPerRun | krkn/health_checks/virt_health_check_plugin.py:479-480 | one record per run in order; with only_failures exactly those of the failing runs |
| VirtTracker.PeriodsDoNotOverlap | krkn/health_checks/virt_health_check_plugin.py:473-478 | under a clock that never runs backwards the periods of the runs follow one another and neighbours differ in status |
| VirtTracker.PublishedInOrder | krkn/health_checks/virt_health_check_plugin.py:402-482 | so the published records of a VM, all or only the failing ones, are in order, disjoint and of true duration |
| Batches.BatchList | krkn/health_checks/virt_health_check_plugin.py:372-387 | slices of ceil(n / limit), none for an empty list or a negative limit, an error for a zero limit |
| Batches.BatchesPartition | krkn/health_checks/virt_health_check_plugin.py:191 | the slices are nonempty, no more than the limit, all but the last of full size, and concatenate to the VM list |
| Batches.RunPostVirtCheck | krkn/health_checks/virt_health_check_plugin.py:516-566 | one record for each failing VM of the batch, in order, with start as end |
| Batches.FailuresAreReported | krkn/health_checks/virt_health_check_plugin.py:516-566 | field by field: each VM whose SSH or readiness check failed has its record, in order, and no other VM has one |
| Batches.QueueNeverEmpty | krkn/health_checks/virt_health_check_plugin.py:506-509 | whenever a thread has been joined the queue holds a batch |
| Batches.GatherProceeds | krkn/health_checks/virt_health_check_plugin.py:484-514 | gathering never gets stuck and ends after three moves per thread |
| Batches.TakenAsFinished | krkn/health_checks/virt_health_check_plugin.py:506-509 | batches are taken in the order in which the threads finished |
| Batches.GatherIsComplete | krkn/health_checks/virt_health_check_plugin.py:484-514 | for every schedule the gathered list is the multiset union of all workers' results, each batch once |
| Batches.GatheredMeansFailure | krkn/health_checks/virt_health_check_plugin.py:511-512 | the gathered list is empty, so that the return value stays, if and only if every VM passed its post-run check |
| Monitors.DrainIsExact | run_kraken.py:584-608 | when the main thread is done each drain holds the batch of every worker that was neither skipped nor died of an exception exactly once, and all workers have ended |
| Monitors.SomeoneCanMove | run_kraken.py:593-607 | after stop_all the main thread can move, or the worker its join waits for can |
| Monitors.StepsRunOut | run_kraken.py:584-608 | after stop_all every step of any thread lowers a natural measure |
| Monitors.StopLeadsToFinish | run_kraken.py:584-608 | so under every interleaving the run ends within a fixed bound, everything joined and drained |
| Monitors.NoFurtherPass | krkn/health_checks/virt_health_check_plugin.py:405-409 | once stopped, a worker begins no further pass |
| Monitors.PassBegins | krkn/health_checks/virt_health_check_plugin.py:405-409 | a worker at its loop condition begins a pass if and only if nobody has said stop and its plugin has counted fewer iterations than its limit, if any |
| Monitors.CountersFollowLoop | krkn/health_checks/health_check_factory.py:83-90 | between iterations every plugin has counted each completed iteration once |
| Monitors.LimitIsKept | krkn/health_checks/virt_health_check_plugin.py:405-409 | so with a limit it begins passes while fewer iterations than that have completed, and none after |
| Monitors.IterationIsCounted | krkn/health_checks/health_check_factory.py:83-90 | after an iteration the main thread counts it at one plugin after another and is back in its loop after as many steps and one more |
| Monitors.StoppedOnlyAfterLeave | krkn/health_checks/health_check_factory.py:92-101 | no plugin is told to stop before the main loop has ended |
| Monitors.StopIsReached | run_kraken.py:584-593 | once it has, the main thread tells one plugin after another to stop and reaches the joins after as many steps and one more, whatever the workers do |
| HttpTracker.HttpMonitor.TrackStatus | krkn/health_checks/http_health_check_plugin.py:194-239 | one response turns tracker, telemetry and return value into `Observe` of it |
| HttpTracker.HttpMonitor.RunHealthCheck | krkn/health_checks/http_health_check_plugin.py:166-263 | the whole loop publishes `Published` of all responses and leaves their return value |
| HttpTracker.GreedyIsProper | krkn/health_checks/http_health_check_plugin.py:194-239 | the greedy cut covers every response: in one segment with its own code, or the closer of one with another code |
| HttpTracker.ProperIsUnique | krkn/health_checks/http_health_check_plugin.py:194-239 | there is no other such cut |
| HttpTracker.PublishedIsGreedy | krkn/health_checks/http_health_check_plugin.py:194-263 | a URL's published records are exactly those of the greedy segmentation of its responses |
| HttpTracker.PublishedRecords | krkn/health_checks/http_health_check_plugin.py:211-260 | field by field: URL, code, status (true exactly for code 200), start of the first response, end of the closer or of monitoring, and duration of each segment |
| HttpTracker.SegmentsInOrder | krkn/health_checks/http_health_check_plugin.py:211-260 | under a monotone clock segments are ordered and disjoint in time |
| HttpTracker.PublishedInOrder | krkn/health_checks/http_health_check_plugin.py:211-260 | so the published records of a URL are in order, disjoint and of true duration |
| HttpTracker.ReturnValue | krkn/health_checks/http_health_check_plugin.py:202-209 | the return value is 3 if and only if a period with exit_on_failure opened on a code other than 200, else 0 |
| HttpTracker.OpensMeansNothingOpen | krkn/health_checks/http_health_check_plugin.py:195-201 | a response opens a period if and only if all earlier ones of its URL are in finished segments or closed one |
| HttpTracker.SingleFailureGoesUnnoticed | krkn/health_checks/http_health_check_plugin.py:210-239 | one failing response between good ones is in no record and sets no return value |
| LoadMetrics.AggregateMetrics | krkn/scenario_plugins/http_load/http_load_scenario_plugin.py:408-466 | the loops compute `Aggregate` |
| LoadMetrics.AddCodes | krkn/scenario_plugins/http_load/http_load_scenario_plugin.py:442-444 | adding one pod's codes, in any order, is the pointwise sum of the maps |
| LoadMetrics.AggregateOfOne | krkn/scenario_plugins/http_load/http_load_scenario_plugin.py:408-466 | field by field: the aggregate of one pod is its metrics with the first ten errors |
| LoadMetrics.MeansOfOne | krkn/scenario_plugins/http_load/http_load_scenario_plugin.py:423-438 | and has its latencies and success rate, if it had requests |
| LoadMetrics.AggregateOfTwo | krkn/scenario_plugins/http_load/http_load_scenario_plugin.py:408-466 | field by field: aggregating two groups together adds their aggregates, the codes one by one, and takes the first ten errors |
| LoadMetrics.MeansOfTwo | krkn/scenario_plugins/http_load/http_load_scenario_plugin.py:423-438 | latencies and success rates, weighted by requests, add too |
| LoadMetrics.WeightedAdditive | krkn/scenario_plugins/http_load/http_load_scenario_plugin.py:424-438 | an aggregate carries the request-weighted sums of its pods, also when none had requests |
| LoadMetrics.AggregationIsHierarchical | krkn/scenario_plugins/http_load/http_load_scenario_plugin.py:408-466 | aggregating the aggregates of any grouping, empty groups included, equals aggregating all pods at once in everything but the pod count |
| LoadMetrics.LatencyWithinBounds | krkn/scenario_plugins/http_load/http_load_scenario_plugin.py:423-431 | each latency lies between any bounds on those of the pods with requests |
| LoadMetrics.SuccessWithinBounds | krkn/scenario_plugins/http_load/http_load_scenario_plugin.py:433-438 | so does the success rate |
| JobWait.Waiter.Inspect | krkn/scenario_plugins/network_chaos/network_chaos_scenario_plugin.py:209-222 | one query counts and removes a finished job, keeps the sum, and raises only past the deadline |
| JobWait.Waiter.Pass | krkn/scenario_plugins/network_chaos/network_chaos_scenario_plugin.py:209-222 | iterating over the shrinking list skips neighbours of removed jobs but still queries at least half |
| JobWait.Waiter.WaitForJob | krkn/scenario_plugins/network_chaos/network_chaos_scenario_plugin.py:204-222 | for any answers: count plus remaining jobs stays the initial number and every job is in the list or was seen finished once; a normal return means all were; queries are bounded by the deadline |
| JobWait.InspectionBound | krkn/scenario_plugins/network_chaos/network_chaos_scenario_plugin.py:220-222 | that bound is floor(timeout / 5) + 2 |
| Containers.KillIn | krkn/scenario_plugins/container/container_scenario_plugin.py:162-193 | kills the first fitting container of the pod, if there is one |
| Containers.RetryContainerKilling | krkn/scenario_plugins/container/container_scenario_plugin.py:206-230 | one to five commands for that container, ending at the first empty answer or exception, raising exactly on the latter |
| Containers.ContainerKillingInPod | krkn/scenario_plugins/container/container_scenario_plugin.py:147-204 | for all random picks: an exception if and only if a command issued raised; else success if and only if enough pod entries have a fitting container, with max(count, 0) kills, each the named or else the first container of a different entry, and commands for exactly these; terminates |
| Containers.MatchingRemove | krkn/scenario_plugins/container/container_scenario_plugin.py:194-196 | removing an entry lowers the number of fitting entries exactly when it fits |
| Containers.MatchingAdds | krkn/scenario_plugins/container/container_scenario_plugin.py:162-193 | fitting entries are counted one by one (`MatchingOne`: those with the named container, or any without a name) |
| Triggers.TriggerManager.Build | krkn/scenario_plugins/triggers/trigger_manager.py:35-115 | check by check: a manager if and only if the settings are in range and every condition is of a known type whose class accepts it; it has one unevaluated trigger of that type per condition, in order; else a justified complaint, for conditions about the first unusable one |
| Triggers.TriggerManager.Poll | krkn/scenario_plugins/triggers/trigger_manager.py:130-134 | stores each answer of the trigger of the right type at its index up to the first evaluation that raises; the later states stay |
| Triggers.TriggerManager.WaitForTriggers | krkn/scenario_plugins/triggers/trigger_manager.py:117-154 | success exactly on the first poll whose answers satisfy the mode, failure never before the deadline, an exception only from an evaluation, states those of the last poll, few polls |
| Triggers.PollBound | krkn/scenario_plugins/triggers/trigger_manager.py:129-148 | that is at most ceil(timeout / interval) polls |
| Triggers.AwaitTriggers | run_kraken.py:450-476 | in the words of the configuration: exit if it cannot be used; else poll triggers of the conditions' own types until all answers are true (mode absent or all_of) or some is (any_of); start on success, on time-out skip (the default), exit or start as on_timeout says; defaults 300 and 5 seconds |
| Throttle.ApplyGivesWanted | krkn/scenario_plugins/storage_throttle/storage_throttle_scenario_plugin.py:590-674 | complete application, v1 or v2, puts exactly the configured read and write limits of the chosen kind on the device, keeps the others and touches no other device |
| Throttle.ResetGivesUnlimited | krkn/scenario_plugins/storage_throttle/storage_throttle_scenario_plugin.py:676-701 | a reset leaves the device without limits, from any state |
| Throttle.VersionsAgree | krkn/scenario_plugins/storage_throttle/storage_throttle_scenario_plugin.py:590-701 | the two cgroup versions have the same effect |
| Throttle.InterruptedApply | krkn/scenario_plugins/storage_throttle/storage_throttle_scenario_plugin.py:304-308 | after any prefix of the commands the device is unlimited if and only if it was before and no command took effect |
| Throttle.Host.RemoveThrottle | krkn/scenario_plugins/storage_throttle/storage_throttle_scenario_plugin.py:676-701 | if no step raises the device is unlimited and all else as before; other devices never change |
| Throttle.Host.Run | krkn/scenario_plugins/storage_throttle/storage_throttle_scenario_plugin.py:272-358 | for exceptions at every step: once applied, the run ends unlimited or with its last reset raised; the pod is deleted last, after a reset was attempted; the result is 0 if and only if nothing raised and the path was usable, and then limits were applied and reset |
| Score.FirstDecides | krkn/prometheus/collector.py:35-49 | the first series that settles a query result gives the verdict |
| Score.NoneDecides | krkn/prometheus/collector.py:51-52 | if none settles it, the verdict is a pass when there were samples, undecided when not |
| Score.RangeVerdict | krkn/prometheus/collector.py:31-52 | on the samples: without an instant value the SLO fails if and only if a sample is positive, and is undecided if and only if no series has samples |
| Score.InstantVerdict | krkn/prometheus/collector.py:31-49 | a positive sample before the first instant value fails it, else it passes if and only if that value parses and is zero |
| Score.SloPassed | krkn/prometheus/collector.py:31-52 | the loops with their early returns compute that verdict |
| Score.CalculateScore | krkn/resiliency/score.py:60-92 | score and breakdown of the evaluated definitions and the health checks |
| Score.SumsAdd | krkn/resiliency/score.py:78-82 | total, lost points and passing SLOs are sums over the single SLOs (`SumsOfOne`: weight, weight if failing, 1 if passing) |
| Score.ScoreIsPercentage | krkn/resiliency/score.py:84 | the score is the one integer s with s <= 100 (total - lost) / total < s + 1 |
| Score.ScoreRange | krkn/resiliency/score.py:81-84 | with nonnegative weights 0..100, and 100 if and only if there are points and every weighted SLO passed |
| Score.ScoreMonotone | krkn/resiliency/score.py:81-84 | a score never falls when failing SLOs become passing |
| Score.BetterResults | krkn/resiliency/score.py:60-76 | turning any query results from failed to passed makes no evaluated SLO worse |
| Score.InRangeIffBalanced | krkn/resiliency/score.py:78-84 | all pass/fail outcomes of some weights score within 0..100 if and only if the total is zero, or positive and more than a hundred times the negative weights, or negative and more than that of the positive ones |
| Score.OneSignBalances | krkn/resiliency/score.py:78-84 | weights that are all nonnegative, or all nonpositive, balance |
| Score.NegativeWeightBreaksRange | krkn/resiliency/score.py:33-37 | weights 1 and -2 do not balance, and reach a score of 200 |
| Score.MissingResultIsSkipped | krkn/resiliency/score.py:61-64 | an SLO without a result is scored as if it were not defined |
| Resiliency.Resiliency.constructor | krkn/resiliency/resiliency.py:378-397 | the SLO list: named by description or index, severity lowered, invalid entries skipped |
| Resiliency.SlosAreAlerts | krkn/resiliency/resiliency.py:378-397 | field by field: one SLO for each usable alert in order, with its description or index as name, its own weight, and its severity with the capitals made small |
| Resiliency.Resiliency.EvaluateSlos | krkn/prometheus/collector.py:55-95 | every SLO name and no other gets a result: a query that raises fails it, one without data passes it, a repeated name keeps the last |
| Resiliency.DefinitionsAreNames | krkn/resiliency/resiliency.py:128 | the dictionary of definitions holds each distinct name once |
| Resiliency.EveryNameCounts | krkn/resiliency/resiliency.py:160-184 | so the number of evaluated SLOs is the number of distinct names |
| Resiliency.ObjectOfSlo | krkn/resiliency/score.py:60-76 | a name is scored with its last SLO: its own weight, or 3 if critical and 1 if not; it fails if and only if its last query raised or has a negative verdict |
| Resiliency.ObjectOfCheck | krkn/resiliency/score.py:68-76 | each health check counts 3 with its own status |
| Resiliency.Resiliency.AddScenarioReport | krkn/resiliency/resiliency.py:98-147 | appends exactly one report, with the score and counts of the scenario's SLO objects, whose number is the distinct names plus the health checks |
| Resiliency.Resiliency.FinalizeReport | krkn/resiliency/resiliency.py:149-184 | the weighted average and the totals, or an error exactly without reports or total weight; total_slos is the number of distinct names |
| Resiliency.ReportSums | krkn/resiliency/resiliency.py:160-170 | the sums in it are those over the reports (`SumsOfOneReport`: weight, and score times weight); a repeated scenario name keeps its last score |
| Resiliency.ScenarioScoreRange | krkn/resiliency/resiliency.py:121-133 | whatever queries and health checks give, a scenario scores 0..100 if the weights of its alerts and checks balance |
| Resiliency.UnbalancedLeavesRange | krkn/resiliency/resiliency.py:121-133 | if they do not, some queries and health checks give a score outside |
| Resiliency.ScenarioScoreMonotone | krkn/resiliency/resiliency.py:121-133 | without negative weights, if every query that passed still passes, the score does not fall, repeated names and health checks included |
| Resiliency.FinalScoreWithinBounds | krkn/resiliency/resiliency.py:160-163 | the final score lies between any whole bounds on the scores that carry weight |
| Labels.BuildExcludeExpressions | krkn/scenario_plugins/application_outage/application_outage_scenario_plugin.py:158-215 | the loops and the nested helper build `Expressions` of the input, for every form |
| Labels.FormsAgree | krkn/scenario_plugins/application_outage/application_outage_scenario_plugin.py:158-215 | dictionary, list and line forms of any terms, with any white space around keys and values, all give exactly the intended expressions in order |
| Labels.DictFormReads | krkn/scenario_plugins/application_outage/application_outage_scenario_plugin.py:188-191 | the dictionary form does so for keys and values of any characters |
| Labels.EntryMeans | krkn/scenario_plugins/application_outage/application_outage_scenario_plugin.py:179-191 | a null value or an empty key gives nothing, a single value what the list of it gives, and a list nothing if and only if all its items are blank |
| Labels.CleanAdds | krkn/scenario_plugins/application_outage/application_outage_scenario_plugin.py:184-184 | items are cleaned one by one (`CleanOneIff`: a blank one goes, any other one is stripped) |
| Labels.ResultIsNormal | krkn/scenario_plugins/application_outage/application_outage_scenario_plugin.py:179-186 | whatever the input, keys are trimmed and values trimmed and nonempty; reading the result again only drops empty keys |
| Labels.StrippedReads | krkn/scenario_plugins/application_outage/application_outage_scenario_plugin.py:193-213 | read as it stands or stripped, a selector gives the same unless its key is white space beside a value that is not: then an expression with an empty key, or none |
| Labels.ListAndLineAgreeIff | krkn/scenario_plugins/application_outage/application_outage_scenario_plugin.py:193-213 | comma-free selectors give the same as a list and as a line if and only if none is of that kind |
| Labels.BarsAreTakenWhole | krkn/scenario_plugins/application_outage/application_outage_scenario_plugin.py:207-213 | for every key and value: a bar gets into a label value if and only if the value has one and is nothing but bars and white space, and it is then the whole value; else bars separate |

## Left out

- `signal.py`, the join-and-drain protocol of `run_kraken.py` with `health_check_factory.py`, and the gathering loop are step relations over values, not classes: threads and signal frames interleave between single field accesses, which a sequential class cannot express.
- Signals: exceptions of foreign handlers arriving inside krkn's own handler frame before it chains on; signals inside the rollback callable are covered as nested frames. Contexts nested in one thread are not modelled: `run_scenarios` is the only caller and does not nest.
- Signals.OnlySuppliedPairs: holds while no foreign exception has cut a context and left its type and telemetry object; `CutMixesPairs` and `CutExitRollsBackUnsupplied` give the other side.
- Signals.OriginalsAreForeign: holds while none has cut a registration that had begun to install; `CutRegistrationChainsToItself` gives the other side.
- Resiliency.ScenarioScoreMonotone: needs nonnegative weights; an SLO of negative weight that starts to pass lowers what is kept.
- Loading and checking a rollback module (`_parse_rollback_module`), rendering the template and the callable itself are one oracle that returns or raises.
- Version listing and the command-line entry points of `krkn/rollback/command.py`.
- Versions: digits and letters are ASCII, where Python's `isdigit` and `isalnum` also accept other scripts; the sort key of a name the validator would refuse is only approximated, as no such name is sorted.
- Driver.ScenarioPlugin.RunScenarios: whether an entry's config file exists, and what its `run` does, are arbitrary; log and event collection is left out because its errors are swallowed; publishing the status may raise.
- Search: Python's sort is a function proved to be the only stable order, not its algorithm.
- VM monitor: how an SSH or readiness check is made (`check_disconnected_access`, `check_vmi_ready`), the ip_address and namespace fields that are copied unchanged, timestamps in ISO text. VM names in a batch are the tracker's keys, so equal names share one entry.
- HTTP monitor: requests, authentication, and `response_tracker`, which influences nothing else. The code is a string in change records and a number in final ones; the model keeps the number.
- Monitors: a pass over the targets with its sleep is one step, which ends or kills the thread with an exception; a target that never answers is not modelled. Plugins whose creation fails are never started. The scenario work between two iterations is left out.
- Batches: with a zero batch size the telemetry handed in is returned as it is.
- LoadMetrics and Score: floating-point rounding. `int(x / y * 100)` in floating point can differ by one at exact boundaries.
- LoadMetrics.AggregationIsHierarchical: the pod count of an aggregate of aggregates counts the groups, as the code does, so it is excepted.
- Containers: finding the pods and asking for their containers; checking afterwards that the containers came back.
- JobWait: the bound needs the sleep to last at least five seconds, as `time.sleep` promises.
- Triggers: how each trigger evaluates, and what its class checks of a condition beyond the type; parsing of numeric options.
- Throttle: parsing and validating the options, finding the cgroup path, read-back warnings; the kernel's reaction to a line is `Effect`.
- Throttle.Host.Run: an application that was interrupted is not undone by the run itself, as in the code, which leaves it to the registered rollback.
- Score: the alert file's YAML, Prometheus queries, the report and telemetry output around `finalize_report`, and `add_scenario_reports`.
- Labels: list elements that are not strings, which the documentation excludes; white space beyond the first 128 characters.
- Node actions, cloud and cluster clients, network_chaos_ng and native plugins, chaos recommender, telemetry, Elastic, Cerberus: clients of other systems with little logic of their own.
