# DragonSniff: verified model

DragonSniff watches a device over HTTP and server-sent events, keeps what it saw as
append-only JSONL evidence, and judges that evidence offline. This project models the
parts of it whose correctness needs an argument across functions, loops or steps, and
proves the properties its documentation promises for them. `dafny verify dfyconfig.toml`
checks the whole project.

**Assessment** (`Sorting`, `Sweep`, `Timeline`, `Tightness`, `Evidence`, `Attempts`, `Pairing`,
`Engine`, `Findings`, `TimeShift`, `Guarantees`, `SmallFiles`, `InstantSamples`, `Overlaps`, `Deletion`,
`Profile`). Time is counted in integer nanosecond units. An
attempt is an interval of uncertain sample instants with a value. A *world* chooses an
instant for every attempt and a truth value for every unit; it is possible when every
unit within the hold after a usable sample, and before the next sample, has that
sample's truth. The engine's loops (pairing, pieces, sweep line, verdicts) are methods
proved equal to reference definitions; about those it is proved that what the engine
claims is true in every possible world, that what it leaves unknown is open in at least
two, that deleting records never moves a finding toward PASS, and that the clock's zero does not matter. Soundness and
tightness are stated for attempts that follow one another in time, which serial polling
gives; the sweep, the pairing and deletion need no such hypothesis, and `Overlaps` says exactly
when claims about overlapping attempts are right.

**Evidence store** (`Bytes`, `Recovery`, `Retention`, `Store`, `Recorder`). Files are byte
sequences. Every operation takes the failure it meets (how many bytes of a write reached
the file, whether the metadata replacement happened) as an argument, so a crash is a
failure after which nothing more is done. Disk metadata, memory metadata, cached sizes and
pending checkpoints are separate fields.

**Session protocol** (`Runs`, `SessionProtocol`, `Manager`) and **runner lifecycles**
(`Phases`, `ChurnLifecycle`, `CaptureLifecycle`, `Connections`). Threads are interleaved atomic
steps; a step is one block under a lock, one call into a session, or one thing a
session's own threads do. Theorems are about every state of every run. The classes' invariant
is that their state is reached by some run of those steps; their blocks make one step each, and
their operations are the blocks in the source's order with anything other threads can do between them.

**Capture and parsers** (`CapturePolling`, `Annotations`, `AnnotationRecovery`, `Utf8`, `Unicode`, `Blocks`, `Sse`,
`SseFields`, `SseReplay`, `JsonAdmission`). The polling loop reads an arbitrary non-decreasing clock. Annotations
meet any sequence of submissions and storage failures. The stream reader takes bytes,
decodes each line with replacement and is proved against a block-by-block meaning; field processing follows section 9.2.6 of
the WHATWG HTML Living Standard except that an event id does not carry over to the next
event, that a last block without a blank line is delivered, that only a newline ends a line,
and that a leading byte order mark stays. The JSON check's explicit stack is proved against the tree itself.

Some results say exactly when a promise is met:

- `Recovery.CrashInsideRecovery`: a crash inside recovery, after the evidence was cut and
  before the metadata were written, leaves the count of quarantined bytes unwritten.
- `ChurnLifecycle.FinishedTooEarlyIff`: `wait_finished` of a churn run promises that the
  terminal evidence and the local cleanup are complete (churn.py:751-752). The cleanup is
  (`ChurnLifecycle.FinishedIsClean`); the evidence is not when another thread's
  look (churn.py:691-693) comes between the look that took the terminal state and its append
  (`ChurnLifecycle.FinishedBeforeRecordedHappens` gives such a run). A capture run has no
  such gap (`CaptureLifecycle.FinishedIsFinal`).
- `SessionProtocol.ReturnPromisedIffRunStarts` and `SessionProtocol.ReturnComesIffNotFailed`:
  an observation stopped for an automated run is not brought back when the wait for it runs
  out, when the second look at the shutdown flag refuses the start, or when the start fails,
  and neither is one whose own restart failed; docs/churn-runner.md:31 speaks only of runs that started.
- `SseReplay.ReplaysIffWellFormed`: the raw payload of an event holds decoded text, so reading
  it again gives everything but the event's decode error, and the same events exactly for well-formed streams (`SseReplay.ReplayLosesDecodeError`).
- `AnnotationRecovery.OneByteShort`: an annotation whose append stopped one byte short is answered
  as existing once its session is shut, and recovery then quarantines it.
- `Overlaps.OverlapPassIsWrong`: docs/assess.md:251-252 calls a finding decided only if it holds in the
  worst case; with overlapping attempts a holds_throughout PASS can miss a false sample that may be the
  latest one. `Overlaps.PassRightIff` says exactly when it does not, and
  `Overlaps.AgreeingOverlapsAreHarmless` which overlaps never matter.
- `InstantSamples.AgreementNotAlwaysSeen`, `InstantSamples.LateWindowNotSeen`: a time_in_band verdict can be INCONCLUSIVE although all
  possible worlds agree; with certain sample instants and a window ended by the terminal it never is (`InstantSamples.InBandDecidedIff`).
- `Store.SessionStore.Create`: a creation that fails after its directory was made, other than at
  the metadata write, leaves the directory.
- `CapturePolling.OneMoreHealthSampleHappens`: one health sample more than the estimate's
  quotient can be scheduled; the estimate's margin covers it.

## Model

| member | source | states |
|---|---|---|
| `Sweep.Integrate` | src/dragonsniff/assess/engine.py:282-312 | For any pieces, overlapping or not: true (false) time is the number of units of the window covered by at least one true (false) piece and by no piece of another kind; the three amounts add up to the window and none is negative |
| `Sweep.StatusOfOnly` | src/dragonsniff/assess/engine.py:303-310 | Where no two pieces overlap, the pointwise rule behind those counts is simply the truth of the piece that covers the unit |
| `Sweep.GapDecided` | src/dragonsniff/assess/engine.py:303-310 | Between two consecutive event points the three running counters decide every unit of the gap the way the pointwise rule does |
| `Sweep.DescribesSorted` | src/dragonsniff/assess/engine.py:291-299 | Sorting the clipped events changes neither the coverage of any unit nor the final sum of any counter |
| `Timeline.BuildPieces` | src/dragonsniff/assess/engine.py:231-279 | The loop over the attempts emits exactly the pieces of the piecewise definition, for every list of attempts |
| `Timeline.PiecesInOrder` | src/dragonsniff/assess/engine.py:231-279 | For attempts one after another in time the emitted pieces are disjoint, in time order, and end by the terminal |
| `Timeline.HoldsEndAtGaps` | src/dragonsniff/assess/engine.py:231-279 | A value is held after an attempt, and into the next one, only with a positive hold, from a valid attempt that ends before the next starts (or before a terminal), and if no missing range touches the records between |
| `Timeline.Sound` | src/dragonsniff/assess/engine.py:231-279 | Whatever the pieces claim about a unit of time holds in every world that meets the hold assumption |
| `Timeline.LongerHoldFewerWorlds` | src/dragonsniff/assess/engine.py:256-257 | A longer hold is a stronger assumption: every world possible under it is possible under the shorter one |
| `Tightness.UnknownIsOpen` | src/dragonsniff/assess/engine.py:231-279 | For every unit before the terminal that the pieces leave unknown there is a possible world where it is true and one where it is false |
| `Tightness.KnownIffCertain` | src/dragonsniff/assess/engine.py:231-279 | Before the terminal the pieces give a unit a value exactly when all possible worlds agree on that value |
| `Tightness.UnknownAfterTerminal` | src/dragonsniff/assess/engine.py:256-279 | Nothing at or after the terminal is ever claimed |
| `Tightness.LongerHoldKnowsMore` | src/dragonsniff/assess/engine.py:231-279 | Enlarging the hold keeps every true unit true and every false unit false |
| `Tightness.NoHoldNoPieces` | src/dragonsniff/assess/engine.py:256-279 | With hold 0 there is no known time at all, for any attempts |
| `Evidence.LoadEvidence` | src/dragonsniff/assess/evidence.py:115-154 | Accepts exactly the non-empty lists of positive, strictly increasing sequence numbers and non-negative times; otherwise reports the first offending line and its reason; the records, the gap list, the inversion count and the run are those of the reference definitions |
| `Evidence.FaultlessIffWellFormed` | src/dragonsniff/assess/evidence.py:49-67 | Line-by-line checks against the previous line accept exactly the globally ordered files |
| `Evidence.GapsAreAbsences` | src/dragonsniff/assess/evidence.py:131-141 | The gap list names exactly the sequence numbers up to the last record that no record has |
| `Evidence.MissingIff` | src/dragonsniff/assess/evidence.py:40-42 | The gap query for a range answers whether some number of that range is absent from the file |
| `Evidence.InversionsAre` | src/dragonsniff/assess/evidence.py:138-143 | The inversion count is the number of records with an earlier time than the record before them |
| `Pairing.RunIs` | src/dragonsniff/assess/evidence.py:91-112 | The run is opened by the earliest start and closed by the earliest completed, cancelled or failed record after it; it is ambiguous exactly if another start comes before that, and else invalid exactly if the ends' ids or times do not fit |
| `Pairing.RunMissingIff` | src/dragonsniff/assess/evidence.py:91-95 | There is no run exactly if no record is a start |
| `Pairing.RunRecordsAre` | src/dragonsniff/assess/engine.py:90-99 | The run's records are exactly those that lie between its ends in number and in time and carry its id, in order |
| `Attempts.DragonAttempts` | src/dragonsniff/assess/engine.py:108-159 | Filing by request id, visiting the ids in any order and sorting gives the list of the order-free reference definition |
| `Attempts.CollectedAll` | src/dragonsniff/assess/engine.py:130-159 | However the ids were visited, once all of them were, the sorted list is the reference list: first sequence numbers are distinct |
| `Attempts.Conservation` | src/dragonsniff/assess/engine.py:108-159 | Every request or completion of the endpoint inside the run belongs to exactly one attempt |
| `Attempts.ValueNeedsOnePair` | src/dragonsniff/assess/engine.py:128-148 | An attempt carries a value only if its id has exactly one request and one later, successful, usable completion, and then it has that completion's value and the pair's instants |
| `Pairing.AttemptIff` | src/dragonsniff/assess/engine.py:108-159 | The attempts are exactly those of the pairs (the only two records of the endpoint with their id, a request and a completion) and of the records in no pair, each with its interval, numbers, value and validity spelled out |
| `Pairing.ValueIffGoodPair` | src/dragonsniff/assess/engine.py:128-148 | A pair has an attempt with a value if and only if its completion is a later, successful, error-free response whose object yields one |
| `Attempts.ObservationsOneToOne` | src/dragonsniff/assess/engine.py:162-180 | The source's observations and its attempts correspond one to one and in order; an attempt spans the time from a usable observation time to the record, and it is valid exactly if the observation is timed, healthy, free of errors and yields a value, which it then carries |
| `Pairing.ObservationIff` | src/dragonsniff/assess/engine.py:162-180 | The attempts of the other source are exactly those of its observations, each with its interval, value and validity spelled out |
| `Attempts.ObservedLastsRise` | src/dragonsniff/assess/engine.py:162-180 | Attempts of an accepted run's observations have rising, and so distinct, sequence numbers |
| `Attempts.AttemptsGrounded` | src/dragonsniff/assess/engine.py:108-186 | Every attempt of either kind runs forward in time and is numbered by records of the run |
| `Engine.AttemptsForSignal` | src/dragonsniff/assess/engine.py:183-186 | Both collection loops agree with the reference attempts of their source |
| `Engine.TallyWindow` | src/dragonsniff/assess/engine.py:386-403 | The loops over the attempts that meet the window count them, and collect exactly the proven and possible violations, as the recursive tally does |
| `Engine.TallyViolations` | src/dragonsniff/assess/engine.py:391-399 | A violation is listed exactly when some false sample's whole interval lies inside the window |
| `Engine.Evaluate` | src/dragonsniff/assess/engine.py:342-484 | The evaluation loop for one check yields the finding defined by the pointwise time counts, the tally and the exact cross-multiplied thresholds |
| `TimeShift.ShiftedFinding` | src/dragonsniff/assess/engine.py:320-484 | For any file, signal, check and hold: if every time of the file is later by d, the window is later by d, and verdict, reasons, amounts and tally are the same |
| `TimeShift.WindowUnits` | src/dragonsniff/assess/engine.py:318-335 | The window holds exactly the units that, counted from the run's start record, lie between the two offsets, or end with the terminal record; it is refused as empty exactly if there are none |
| `TimeShift.WholeRunWindow` | src/dragonsniff/assess/engine.py:318-335 | Without offsets it lasts from the start record to the terminal record |
| `Findings.TallyCounts` | src/dragonsniff/assess/engine.py:386-403 | The tally counts the samples whose interval touches the window, and the valid ones among them |
| `Findings.TallyLists` | src/dragonsniff/assess/engine.py:386-403 | Its lists name exactly the false samples wholly inside the window, the other false samples that touch it, those that touch it without a truth, and the invalid ones that touch it |
| `Findings.ReasonsIff` | src/dragonsniff/assess/engine.py:405-478 | A decided finding has no reasons; each reason of an undecided one is given exactly if what it says of hold, coverage, samples, gaps, terminal and edge holds |
| `Findings.ReachedIsFraction` | src/dragonsniff/assess/engine.py:461-480 | The cross-multiplied comparison is the comparison of the two exact fractions |
| `Guarantees.TrueTimeBounds` | src/dragonsniff/assess/engine.py:461-480 | In every possible world the true time of the window lies between the reported true time and the window minus the reported false time |
| `Guarantees.InBandDecidedIsRight` | src/dragonsniff/assess/engine.py:461-480 | With no missing record and sequential attempts, a time_in_band PASS (FAIL) means that the fraction is at least (below) min_fraction in every possible world |
| `InstantSamples.BoundsAreAttained` | src/dragonsniff/assess/engine.py:461-480 | With certain sample instants the two bounds on the true time of the window are the true times of two possible worlds |
| `InstantSamples.InBandDecidedIff` | src/dragonsniff/assess/engine.py:461-480 | With certain sample instants and a window that ends by the terminal, time_in_band is PASS (FAIL) if and only if all possible worlds agree that the fraction is reached (missed) |
| `InstantSamples.AgreementNotAlwaysSeen` | src/dragonsniff/assess/engine.py:461-480 | Without certain instants it is not: a file of four records with one sample somewhere in four units makes every possible world reach seven tenths, and the verdict is INCONCLUSIVE |
| `InstantSamples.LateWindowNotSeen` | src/dragonsniff/assess/engine.py:461-480 | Nor in a window that ends after the terminal: a file of four records with a certain instant whose held value fills the window in every possible world, and the verdict is INCONCLUSIVE |
| `Guarantees.ThroughoutFailIff` | src/dragonsniff/assess/engine.py:357-460 | For every accepted file and usable window, overlapping attempts included: holds_throughout fails exactly if no record before the terminal is missing and some false sample's whole interval lies in the window |
| `Guarantees.FailIgnoresHold` | src/dragonsniff/assess/engine.py:449-460 | Whether holds_throughout fails does not depend on the hold, for any accepted file |
| `Guarantees.ThroughoutPassIff` | src/dragonsniff/assess/engine.py:449-460 | holds_throughout passes exactly when there is no proven violation, the window ends by the terminal, and every unit is true in every possible world |
| `Overlaps.SameWorlds` | src/dragonsniff/assess/engine.py:231-279 | A value that persists until the next sample in time persists until the next attempt's sample, for attempts one after another |
| `Overlaps.ClaimRightIff` | src/dragonsniff/assess/engine.py:231-279 | For any attempts, overlapping or out of order: what the engine claims of a unit holds in every world in which values persist until the next sample in time if and only if every attempt whose sample can be the latest by then has the claimed value |
| `Overlaps.PassRightIff` | src/dragonsniff/assess/engine.py:449-460 | For any accepted file: the window of a holds_throughout PASS is true in every such world if and only if every sample that can be the latest somewhere in the window is true |
| `Overlaps.OverlapPassIsWrong` | src/dragonsniff/assess/engine.py:449-460 | A file of six records, a quick true sample inside a slow false one, whose holds_throughout PASS is wrong in a possible world |
| `Overlaps.AgreeingOverlapsAreHarmless` | src/dragonsniff/assess/engine.py:449-480 | Where attempts start in order and overlapping ones agree on a known value, the reported times bound the true time of the window in every such world, PASS and FAIL of time_in_band are right and a holds_throughout PASS is true throughout |
| `Guarantees.LongerHoldKeepsVerdict` | src/dragonsniff/assess/engine.py:449-480 | Enlarging the hold never lowers a known time and never flips or loses a decided finding |
| `Guarantees.NoHoldNeverPasses` | src/dragonsniff/assess/engine.py:449-480 | With hold 0 nothing passes and time_in_band stays INCONCLUSIVE, for any records |
| `Guarantees.IncompleteDecidesNothing` | src/dragonsniff/assess/engine.py:357-384 | A missing record before the terminal, or no usable window, gives INCONCLUSIVE with no known time |
| `Deletion.NothingMissingNothingDeleted` | src/dragonsniff/assess/evidence.py:40-42 | If what is left misses no number up to t, then no record up to t was deleted |
| `Deletion.SameFinding` | src/dragonsniff/assess/engine.py:342-484 | Two files that agree up to the first terminal get the same finding, for every check, signal and hold |
| `Deletion.DeletionIdenticalOrSilent` | src/dragonsniff/assess/engine.py:342-484 | After any deletion a finding is the original one, reasons and tallies included, or INCONCLUSIVE with no true and no false time |
| `Deletion.DeletionNeverTowardPass` | src/dragonsniff/assess/engine.py:342-484 | A PASS of the reduced file is a PASS of the full one, a PASS never becomes a FAIL, and the two bounds on the fraction only widen |
| `Deletion.AnyDeletionNeverTowardPass` | src/dragonsniff/assess/engine.py:342-484 | The same for every subset of records one may choose to keep, as the documentation states it (docs/assess.md:254-275) |
| `Deletion.TrailingDeletionChangesNothing` | src/dragonsniff/assess/evidence.py:91-112 | Deleting only records after the first terminal changes no finding |
| `Profile.RoundingIsExact` | src/dragonsniff/assess/profile.py:110-118 | Seconds become the largest whole number of nanoseconds not above them, or, rounding up, the least not below |
| `Profile.WindowRoundsOutward` | src/dragonsniff/assess/profile.py:161-171 | An accepted explicit window is never empty after rounding and grows by less than a nanosecond on each side |
| `Profile.WindowAcceptedIff` | src/dragonsniff/assess/profile.py:161-171 | Exactly the windows that start at or after zero seconds and end after they start are accepted |
| `Profile.HoldAcceptedIff` | src/dragonsniff/assess/profile.py:255-258 | Exactly the holds from zero seconds to an hour are accepted |
| `Profile.RoundedHoldSameWorlds` | src/dragonsniff/assess/profile.py:110-118 | A hold rounded down to nanoseconds allows exactly the worlds that the declared seconds allow |
| `Bytes.LastCompleteRecordEnd` | src/dragonsniff/storage.py:620-630 | The backward search finds one past the last newline, for every chunk size |
| `Bytes.ScanEvidence` | src/dragonsniff/storage.py:632-643 | The forward scan counts the newlines and the bytes of the file, for every chunk size |
| `Bytes.PartialRecord` | src/dragonsniff/storage.py:207-231 | After whole lines, any part of one more record leaves exactly the whole lines complete, unless the record is there to its last byte |
| `Recovery.RepairPartialTail` | src/dragonsniff/storage.py:586-617 | Exactly a torn file is changed: the evidence becomes its longest newline-terminated prefix, the quarantine holds the rest, and the metadata its length |
| `Recovery.RecoverSession` | src/dragonsniff/storage.py:432-477 | Repair, rescan and status change together give the recovered directory of the specification |
| `Recovery.RecoveryKeepsBytes` | src/dragonsniff/storage.py:586-617 | Recovered evidence and quarantined tail together are the old bytes, and the complete lines are the same |
| `Recovery.RecoveryCountsExactly` | src/dragonsniff/storage.py:445-473 | For any directory: after recovery the record and byte counts are those of the file, unless a finished session's untorn file has a right byte count beside a wrong record count; an active session is interrupted, any other status and the failure reason are kept |
| `Recovery.RecoveryIsIdempotent` | src/dragonsniff/storage.py:432-477 | A second recovery changes nothing |
| `Recovery.QuarantineAccountedIff` | src/dragonsniff/storage.py:586-617 | The metadata name the size of the quarantine exactly when this recovery wrote it or it was right before |
| `Recovery.CrashInsideRecovery` | src/dragonsniff/storage.py:586-617 | A crash between the cut and the metadata write loses no byte, and the next recovery's counts are exact; but the size of the quarantine stays wrong unless it was named already |
| `Recovery.CrashesInsideRecovery` | src/dragonsniff/storage.py:432-477 | However many startups die, and wherever: the next one leaves what an undisturbed one would have left, except that the noted size of the quarantine is lost if and only if the file was torn, its size not noted already, and the first death past the copy came before the metadata write |
| `Recovery.CrashDuringAppend` | src/dragonsniff/storage.py:207-236 | A crash after any number of bytes of an append keeps every earlier record; the record in flight survives exactly if it is whole |
| `Retention.PurgePass` | src/dragonsniff/storage.py:383-430 | The loop removes exactly the specified candidates, and its running total and count are those of the specification |
| `Retention.PurgeIsOldestUnleased` | src/dragonsniff/storage.py:387-428 | What is removed is exactly the unleased candidates before some point of the oldest-first order |
| `Retention.PurgeStops` | src/dragonsniff/storage.py:397-428 | The pass stops there only because bytes and sessions are within their limits, the next deletion fails, or no candidate is left |
| `Retention.PurgeOnlyWhileExceeded` | src/dragonsniff/storage.py:397-428 | At each removal the bytes or the sessions left were above their limit |
| `Retention.OldestGoFirst` | src/dragonsniff/storage.py:387-428 | A session is removed only after every finished, unleased one that is older, or as old with a smaller id, whatever deletions fail |
| `Retention.RemainingTotal` | src/dragonsniff/storage.py:426-428 | The running total and count equal the sum and the number of what remains |
| `Retention.PassGuarantees` | src/dragonsniff/storage.py:383-430 | Without deletion errors a pass over the stored sessions ends with bytes and sessions within their limits, or with every remaining finished session leased |
| `Retention.PurgedAreFinished` | src/dragonsniff/storage.py:383-430 | No active and no leased session is ever removed |
| `Store.WriteMetadata` | src/dragonsniff/storage.py:688-716 | The file and its cached size after a stored write, and after a failure before or after the replacement |
| `Store.AppendRecord` | src/dragonsniff/storage.py:207-236 | The record, or the part of it that was written, follows the old evidence whatever fails; a successful append counts it, keeps counters, caches, checkpoint and pending count in agreement with the files, and writes the metadata exactly at every 64th record; a finished session is left alone |
| `Store.FinishSession` | src/dragonsniff/storage.py:238-260 | The first terminal status and the first failure reason are kept, and afterwards disk and memory metadata are equal; a failed write changes nothing in memory |
| `Store.RestartIsExact` | src/dragonsniff/storage.py:432-477 | Whatever failures came before, in the store or in any number of earlier restarts: after a restart caches, counters and files agree and no session is active |
| `Store.LoadAndRecover` | src/dragonsniff/storage.py:432-477 | Startup recovers every readable session directory |
| `Store.SessionStore.Create` | src/dragonsniff/storage.py:140-205 | A new session is active, empty and exact; a failed creation leaves no session, and it leaves an unreadable directory if and only if it failed after the directory was made and before the metadata write, or at that write with a failed cleanup |
| `Store.SessionStore.Append` | src/dragonsniff/storage.py:207-236 | The outcome for unknown, finished and active sessions; no other session changes |
| `Store.SessionStore.Finish` | src/dragonsniff/storage.py:238-260 | The session is closed with the first status and the first failure reason, or retention has removed it; other sessions are unchanged or were finished and unleased when removed; without deletion errors the store is then within its limits or all finished sessions are leased |
| `Store.SessionStore.EnforceRetention` | src/dragonsniff/storage.py:383-430 | Exactly the sessions that the specification purges disappear, given the cached sizes, creation times and current leases; without deletion errors, whatever list of the remaining sessions is made, bytes and sessions are within their limits or every finished session is leased |
| `Store.SessionStore.OpenDownload` | src/dragonsniff/storage.py:355-381 | A lease is taken exactly for a known session whose evidence is a regular file; lease counts equal the open downloads of every session |
| `Store.SessionStore.CloseDownload` | src/dragonsniff/storage.py:355-381 | Lease counts equal the open downloads, what retention then removes is finished and has none, and without deletion errors the store is within its limits or all finished sessions are leased |
| `Recorder.PersistentRecorder.Append` | src/dragonsniff/recording.py:26-43 | The live view is the last min(n, max) visible records, numbered without a gap, with the others counted as dropped; a terminal record closes the session, in memory and on disk, with the status of its kind; without failures an active session accepts every named record; a refused record is never visible; after an append that failed in the store the session has a failure reason and is failed, or as its close had stored it, and no later append is accepted |
| `Recorder.PersistentRecorder.BeforeRecordVisible` | src/dragonsniff/storage.py:84-96 | A record becomes visible only when the evidence file is exactly the visible records and this one; the session is then closed exactly if the record's kind is terminal, with that kind's status; a failure leaves at most part of one record behind and the session closed |
| `Recorder.AtMostOneExtra` | src/dragonsniff/storage.py:84-96 | What a failed append leaves behind holds at most one complete record beyond the visible ones |
| `Recorder.VisibleSurvivesCrash` | src/dragonsniff/storage.py:84-96 | In every state, after a crash and any number of crashes in the restarts after it, recovery keeps every record ever made visible, in order, and at most the one in flight after them |
| `SessionProtocol.InvPreserved` | src/dragonsniff/server.py:168-488 | The protocol's invariant is kept by every atomic step of start paths, watchers, shutdown, user stops and the sessions' own threads |
| `SessionProtocol.OneModeAtATime` | src/dragonsniff/server.py:168-337 | In every reachable state at most one of all sessions ever started is active, and it is an installed one |
| `SessionProtocol.ReturnsAreConserved` | src/dragonsniff/server.py:236-337 | Every observation stopped for an automated run is returned once to its own target, dropped once, or pending; none is claimed twice |
| `SessionProtocol.PendingReturnSurvives` | src/dragonsniff/server.py:236-337 | Until it is settled, a pending return is unchanged by any number of chained automated runs |
| `SessionProtocol.OnlyTheCurrentWatcherReturns` | src/dragonsniff/server.py:428-466 | An observation comes back only through the one watcher of the current generation, and only after its run has finished |
| `SessionProtocol.ReturnComesIffNotFailed` | src/dragonsniff/server.py:428-466 | While the lock is free and a return is pending, some waiting watcher still passes the checks exactly if the last attempt to start the observation has not failed |
| `SessionProtocol.WatcherBringsItBack` | src/dragonsniff/server.py:428-466 | Once its run has finished, the two steps of that watcher install an observation of the pending target |
| `SessionProtocol.ReturnPromisedIffRunStarts` | src/dragonsniff/server.py:236-275 | In every run of the protocol, from the moment an observation is told to stop for an automated run until the start is over: its return is pending if and only if that run started; it is lost if and only if the wait for it ran out, the second look at the shutdown flag refused, or the start failed |
| `SessionProtocol.NothingStartsAfterShutdown` | src/dragonsniff/server.py:468-488 | After shutdown's snapshot nothing starts; once it lets go of the lock every session still active was asked to stop |
| `Manager.SessionManager.Others` | src/dragonsniff/server.py:168-488 | Whatever other threads do without the lock (stops, sessions' own work, the shutdown flag), the manager stays in a reachable state of the protocol, no session starts, none becomes active again and the flag stays up |
| `Manager.SessionManager.Prepare` | src/dragonsniff/server.py:168-188 | With any interference at any point: if a start may go on, no session is active, and a remembered observation was active and is the installed one; a refusal names its cause; only phases and the shutdown flag have moved |
| `Manager.SessionManager.StartObservation` | src/dragonsniff/server.py:168-200 | A started observation is the one new session, installed, with every earlier session over and no return pending; a refused or failed start moves no field of the manager; and a start is refused only for a failure, shutdown, an active run, or an observation that is still stopping |
| `Manager.SessionManager.StartRun` | src/dragonsniff/server.py:236-275 | A started run is the one new session, with every earlier session over; the return of the observation it stopped is pending with that observation's target, or the earlier pending return is kept, and a watcher of this run and generation exists exactly if one is pending; otherwise nothing moves; and a start is refused only for a failure, shutdown, an active run, or an observation that is still stopping |
| `Manager.SessionManager.ResumeObservation` | src/dragonsniff/server.py:428-466 | The observation returns exactly if this is the watcher of the current generation and current run, nothing observes, a return is pending, the server is not shutting down and the start succeeds; a refused return changes no target |
| `Manager.SessionManager.Shutdown` | src/dragonsniff/server.py:468-488 | Afterwards nothing is pending, nothing was started, and every session that is still active was told to stop |
| `Manager.SessionManager.ServeAll` | src/dragonsniff/server.py:168-488 | After any sequence of operations with any interference at most one of all sessions ever started is active and it is installed; once shut down, nothing has started and what is active was told to stop |
| `CapturePolling.Poll` | src/dragonsniff/capture.py:386-406 | The polling loop performs the schedule of the turn-by-turn definition, for any clock readings, cancellations and exceptions |
| `CapturePolling.TurnSamples` | src/dragonsniff/capture.py:386-404 | A turn that sees the flag or the deadline samples nothing; any other samples exactly what is due |
| `CapturePolling.StatesKeepTime` | src/dragonsniff/capture.py:386-396 | If every turn comes less than an interval after the one before it, state sample n is due at exactly n intervals after the start, and just the samples that were due have been made |
| `CapturePolling.HealthsKeepTime` | src/dragonsniff/capture.py:397-402 | The same for the health samples |
| `CapturePolling.LateSamplesAreSkipped` | src/dragonsniff/capture.py:391-402 | A loop that is late by an interval or more does not catch up: the next sample is due one interval after the late one |
| `CapturePolling.SamplesAreBounded` | src/dragonsniff/capture.py:386-406 | However long the fetches take, at most ceil(duration / state interval) scheduled state samples and ceil(duration / health interval) + 1 scheduled health samples are made |
| `CapturePolling.OneMoreHealthSampleHappens` | src/dragonsniff/capture.py:390-404 | The extra health sample is real: a slow state sample can push it past the deadline |
| `CapturePolling.Run` | src/dragonsniff/capture.py:382-426 | A run never records more than four records less than `estimated_records()`; if no fetch raises, its records are exactly two lifecycle records and two for each fetch; and with as many annotations as its limit allows a fresh recorder drops nothing |
| `CapturePolling.EstimateIsFourMore` | src/dragonsniff/capture.py:128-133 | The estimate is four more than the records of a run that makes every sample its bounds allow |
| `Annotations.CaptureAnnotations.RecordAnnotation` | src/dragonsniff/capture.py:303-380 | The answer is decided in this order and exactly so: an identity mismatch; what an accepted id stands for; what the shut evidence holds under the id; not running; at the limit; created, with the request's own content, exactly if the store takes it; accepted annotations never change |
| `Annotations.CaptureAnnotations.EvidenceDecides` | src/dragonsniff/capture.py:321-355 | Once the session is shut, a record in its evidence decides: identical content gets that record, other content a conflict, also when its append was reported as failed |
| `Annotations.RunCalls` | src/dragonsniff/capture.py:303-380 | Over any sequence of submissions, state changes and storage failures each id is created at most once, a repeated request gets the same record, evidence ids stay distinct and the limit is never exceeded |
| `Annotations.FindIsTheOne` | src/dragonsniff/storage.py:275-300 | Among the records that parse, the first one found under an id is the only one |
| `Annotations.OneRecordPerId` | src/dragonsniff/capture.py:303-380 | Distinct ids mean at most one evidence record per annotation id |
| `AnnotationRecovery.AnsweredSurvivesIffWhole` | src/dragonsniff/storage.py:275-300 | An annotation answered from shut evidence is found again after recovery, at the same place, if and only if its line ends with a newline; otherwise nothing is found under its id |
| `AnnotationRecovery.OneByteShort` | src/dragonsniff/storage.py:275-300 | An append that stopped after k bytes is answered as existing from one byte short of the record on, and survives recovery only if it is whole |
| `Blocks.ClosedBlocksAppend` | src/dragonsniff/client.py:475-519 | One more line ends the open block exactly if it is blank |
| `Utf8.DecodedIsClean` | src/dragonsniff/client.py:81-85 | Text that was decoded with replacement decodes to itself, without an error |
| `Utf8.DecodeJoin` | src/dragonsniff/client.py:81-85 | Decoding goes on after well-formed bytes as if they had not been there |
| `Utf8.AsciiKept` | src/dragonsniff/client.py:81-85 | Replacement leaves the ASCII bytes of a text as they are: the same ones, as often and in the same order |
| `Unicode.WellFormedIff` | src/dragonsniff/client.py:81-85 | The decoder finds no error exactly in the encodings of code point sequences without surrogates |
| `Unicode.BrokenPartIsMaximal` | src/dragonsniff/client.py:81-85 | What is replaced is a maximal part: longer than a byte only if it begins a well-formed sequence, and with the next byte it would begin none |
| `Sse.TakeField` | src/dragonsniff/client.py:508-519 | Updating data lines, event name and event id line by line agrees with the block's values: all data values, the last event name, the last NUL-free id |
| `Sse.ReadLine` | src/dragonsniff/client.py:483 | The next line, at most one byte more of it than the limit |
| `Sse.IterSse` | src/dragonsniff/client.py:475-519 | A stream read to its end yields exactly the events of its blank-separated blocks, in decoded text with the first decode error of the block, the unterminated last block included; a stop yields those of the blocks ended by then; the reader gives up exactly at the first block over the limit |
| `SseFields.FieldForms` | src/dragonsniff/client.py:504-507 | Field and value of a line with a colon and a space, with a colon only, and without a colon |
| `SseFields.StripIs` | src/dragonsniff/client.py:490 | Exactly the carriage returns and newlines at the end of a line are cut off |
| `SseFields.NameIs` | src/dragonsniff/client.py:508-519 | The name is the value of the last event line, and "message" without one or if that is empty |
| `SseFields.IdIs` | src/dragonsniff/client.py:516-519 | The id is the value of the last id line without a NUL; lines with one count for nothing |
| `SseFields.FirstBadIs` | src/dragonsniff/client.py:490-492 | The decode error is that of the first line of the block that does not decode |
| `SseFields.FitsIff` | src/dragonsniff/client.py:483-489 | Nothing is too large exactly if no stretch of lines of one block, its blank line included, has more bytes than the limit |
| `SseReplay.RawPayloadsReproduceStream` | src/dragonsniff/client.py:493-541 | The raw payloads of the events are the decoded lines of the stream that are not blank, in order |
| `SseReplay.ReplayKeepsText` | src/dragonsniff/client.py:493-541 | The recorded raw payloads of any stream, read again, give as many events, each with the same name, id, raw lines and data, and without a decode error |
| `SseReplay.ReplaysIffWellFormed` | src/dragonsniff/client.py:493-541 | They give the same events if and only if the whole stream is well-formed UTF-8 |
| `SseReplay.ReplayLosesDecodeError` | src/dragonsniff/client.py:493-541 | A data line with the byte 0xFF is an event whose replay differs |
| `SseReplay.RenderedMessagesReadBack` | src/dragonsniff/client.py:508-519 | Messages rendered with well-formed, CR- and LF-free names, data lines and NUL-free ids are read back, each with its name, id and data |
| `JsonAdmission.FirstIsFirst` | src/dragonsniff/client.py:88-119 | The recursive definition accepts exactly the trees without a node below depth 128 or text that cannot be encoded, and else finds the first such node in left-to-right pre-order |
| `JsonAdmission.AcceptedIffSafe` | src/dragonsniff/client.py:88-119 | Exactly the values are accepted in which no string and no key has a surrogate and nothing is deeper than 128 |
| `Unicode.EncodableIff` | src/dragonsniff/client.py:103-107 | Text is safe exactly if the bytes of its code points decode |
| `JsonAdmission.Validate` | src/dragonsniff/client.py:88-119 | The explicit stack terminates, agrees with the recursive definition, and reports the first offending node of all, too deep before unsafe |
| `JsonAdmission.PushingChildren` | src/dragonsniff/client.py:108-119 | Pushing a node's children in reverse makes the stack visit them left to right, before what was on it |
| `Connections.ConnectionBudget.Acquire` | src/dragonsniff/client.py:52-55 | A permit is given exactly while fewer leases than the limit hold one |
| `Connections.ConnectionBudget.Enter` | src/dragonsniff/client.py:55-57 | The active count is the number of counted leases and never exceeds the limit |
| `Connections.ConnectionBudget.Leave` | src/dragonsniff/client.py:59-61 | The active count goes down with the counted leases |
| `Connections.ConnectionBudget.Release` | src/dragonsniff/client.py:58-62 | When every lease has ended the whole budget is free again |
| `ChurnLifecycle.InvPreserved` | src/dragonsniff/churn.py:224-319 | The lifecycle's invariant is kept by every atomic step of the worker, the stream worker and any other thread |
| `ChurnLifecycle.TerminalIsAbsorbing` | src/dragonsniff/churn.py:689-742 | A terminal state is the one decided by the worker and never gives way to another, except that a failed write of its record makes it failed |
| `ChurnLifecycle.TerminalRecordedOnce` | src/dragonsniff/churn.py:689-742 | The terminal record is attempted at most once, and only when no permit is held and the workers are done |
| `ChurnLifecycle.FinishedIsClean` | src/dragonsniff/churn.py:689-757 | A run that reports finished is over, holds no permit, has no live stream worker, and stays so |
| `ChurnLifecycle.FinishedTooEarlyIff` | src/dragonsniff/churn.py:689-757 | At the step of a run at which it first reports finished, its terminal record has not been attempted if and only if that step is a look that finds the state terminal already, and nobody has tried the append since the look that won the record; never if the writer itself reports it |
| `ChurnLifecycle.FinishedBeforeRecordedHappens` | src/dragonsniff/churn.py:689-742 | A run of six steps that reports finished before its terminal record is written |
| `ChurnLifecycle.CancelledInTime` | src/dragonsniff/churn.py:249-319 | A cancel flag raised before the run decides makes it cancelled, or failed if that cannot be recorded |
| `ChurnLifecycle.RunEndsAs` | src/dragonsniff/churn.py:249-319 | In every run, from the end of the cycles on: the proposed outcome is the cycles' outcome, or cancelled if the flag was up; the terminal state is cancelled if the flag is up at the decision, failed if settlement failed, and else what was proposed; or failed if it could not be recorded |
| `ChurnLifecycle.OnlyDoneRunsSettle` | src/dragonsniff/churn.py:296-312 | Only a run that completed or was cancelled enters settlement |
| `ChurnLifecycle.ChurnRunner.FinishIfComplete` | src/dragonsniff/churn.py:689-742 | It answers true exactly if the state is terminal already or nothing has to be waited for, and then the run is over, reported and clean; the one caller that finds the record unclaimed attempts it once and leaves the decided state, or failed if the record could not be written; whatever other threads do meanwhile |
| `ChurnLifecycle.ChurnRunner.EndRun` | src/dragonsniff/churn.py:314-319 | The decided terminal state becomes the pending one, is never replaced, and the worker ends |
| `ChurnLifecycle.ChurnRunner.RecordTerminal` | src/dragonsniff/churn.py:725-742 | Three steps between which other threads may look: afterwards the record was attempted once, the run reports finished, and its state is the one taken, or failed exactly if the append failed |
| `ChurnLifecycle.ChurnRunner.Stop` | src/dragonsniff/churn.py:249-258 | A run that is idle or over is not touched; any other has the cancel flag up, and if it had not decided when the flag went up it can end only as cancelled or failed; it answers over only for a clean, finished run |
| `CaptureLifecycle.InvPreserved` | src/dragonsniff/capture.py:252-542 | The lifecycle's invariant is kept by every atomic step of the worker, the printer source and any other thread |
| `CaptureLifecycle.TerminalIsAbsorbing` | src/dragonsniff/capture.py:475-506 | A terminal state never gives way to another, except that a failed write of its record makes it failed |
| `CaptureLifecycle.FinishedIsFinal` | src/dragonsniff/capture.py:475-542 | A capture that reports finished holds no permit, its worker and its source are dead, its terminal record was attempted once, and nothing changes any more |
| `CaptureLifecycle.FinishIsSeen` | src/dragonsniff/capture.py:515-542 | Once the worker is dead, the next look finds the run finished exactly if the source has ended or it was finished already |
| `CaptureLifecycle.CancelledInTime` | src/dragonsniff/capture.py:475-506 | A cancel flag raised before the terminal state is set makes the run cancelled, or failed if that cannot be recorded |
| `CaptureLifecycle.CaptureRunner.Stop` | src/dragonsniff/capture.py:289-301 | A run that is idle or over is not touched; any other has the cancel flag up and, if its terminal state was not set by then, can end only as cancelled or failed; it answers over only for a clean, recorded run |
| `CaptureLifecycle.CaptureRunner.FinishIfComplete` | src/dragonsniff/capture.py:523-542 | It says over only for a finished, clean, terminal run whose record was attempted once |
| `CaptureLifecycle.CaptureRunner.Complete` | src/dragonsniff/capture.py:475-506 | With other threads at every point: the worker ends, the record was attempted exactly once, and the final state is failed if it could not be written, else cancelled if the flag was up, else the proposed outcome |

## Left out

- HTTP server, request handlers, Host and Origin checks, static files: input/output and policy plumbing.
- Sockets, urllib, timeouts and thread scheduling: replaced by arbitrary steps, delays and failures.
- JSON and TOML decoding, SHA-256, timestamps and UUIDs: values; a decoded JSON tree or record is the starting point, and blank or undecodable lines of an evidence file are not modelled; UTF-8 decoding is modelled for event streams only.
- Predicate evaluation (`_truth`, `_extract`, pointer resolution): modelled as fixed functions of a decoded value with real numbers; float comparison is not modelled.
- Finding details beyond verdict, reasons, window, amounts and tallies: float display of seconds, sorted and truncated lists.
- Session metadata checks of an assessed file and the profile's schema checks: branch-by-branch, without state.
- Nanosecond time is a set of integer units; a world does not change its truth within a unit.
- Store: the five dictionaries keyed by session id are one map of sessions, so that an entry cannot be in one of them only.
- Store: a directory deletion either happens or not; a partly deleted directory, symbolic links, directory fsync and the Windows line-end tolerance are not modelled.
- Store.SessionStore.Create: a directory that a failed creation leaves counts as unreadable at once, where the source finds it at its next look at the storage root.
- Store: metadata files are found readable or not; their length is an uninterpreted function of their contents.
- Recovery: the lock directory, temporary files and stale `.tmp` cleanup are not modelled.
- Store.RestartIsExact: assumes metadata that count no more bytes than the complete lines have, and their records if they count all their bytes; every operation of the store keeps that under every failure (`Store.Sound`), and so does a recovery that dies (`Recovery.CrashesInsideRecovery`), but edited metadata may not have it (`Recovery.RecoveryCountsExactly` covers any).
- Recorder.PersistentRecorder.Append: says nothing of the file after a failed append whose failed status could not be stored either (`broken`).
- Recorder: the recorder without a store, the snapshot copies and the JSONL export.
- SessionProtocol: observations and runs are abstract sessions that start, are asked to stop and end; an observation's reconnects, refreshes and stream generations are not modelled, nor a session that fails inside `start` after it launched work.
- SessionProtocol: a watcher thread that cannot be started, and the shared shutdown deadline; every wait may end at any time.
- CapturePolling: durations, intervals and clock readings are reals; the upper bounds that `validate` adds and the printer source's records are not needed for the bound and not modelled.
- Annotations: validation of request fields, and the manager's answer when no capture is installed; marker, note, operator and correlation are compared as one content value.
- AnnotationRecovery: how a line reads is a parameter; a record's line without its newline reads as the record, and no shorter part of it does.
- Annotations: an append outcome is an argument, with the failed status stored as `Recorder` proves it.
- Sse: text is its UTF-8 encoding, and a decode error is the undecodable line instead of the decoder's message; parsing of the event data as JSON is not part of the event.
- JsonAdmission: positions are child indices instead of the source's path text.
- ChurnLifecycle, CaptureLifecycle: counters, summaries, samples and the settlement schedule; a worker thread is alive from the start of its run to the end of its last step.
- Observer, printer status parsing and redaction, target normalisation, browser code and release scripts.
