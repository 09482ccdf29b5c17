# Verified model of the AziHSM certificate authority

The authority keeps everything it knows in a state directory of small files. It has no database: a file is published by writing a hidden sibling and renaming it, an enrollment is a sequence of such publications around one signature, and after a crash a validating scan and a few operator commands put the directory right again. This project models that machinery operation by operation and proves what it promises over whole runs, with a stop allowed between any two file operations and in the middle of any write.

How a stop is modelled. Every file-system operation, directory operation and key call spends one unit of `fuel`; the operation attempted at fuel 0 does not happen and the run ends there, which is what a crash or an I/O error leaves on disk. A write that is cut short leaves nothing, a strict prefix, or everything but the final newline (`Tear`). Theorems hold for every amount of fuel and every tear unless they say otherwise. What the model does not see is a parameter it makes no assumption about: the hash, the order in which a directory is listed, file sizes, certificate construction, random draws, clocks, and every answer of the key.

Each command appears twice: as a specification function on the state, about which the theorems are stated, and as a method of a class (`StateDirectories.StateDirectory`, `InitDirectories.InitDirectory` with its `JournalWriter`, `DeletionClients.DeletionClient`, `RateLimiting.RateLimiter`) that changes fields step by step, loops as the source does, and is proved to leave exactly the state and return exactly the result of the function.

## Where to look

| files | content |
|---|---|
| `Publication`, `ClientFiles` | staged, non-replacing publication of one file, authority and client |
| `Records`, `Authority`, `Issuance`, `Scan`, `Quarantine` | the state, enrollment, recovery, the scan, quarantine |
| `Validators`, `Inspection`, `StateDirectory` | the same as loops and methods on an object |
| `Advance`, `IssuanceRuns`, `Answers` | safety over whole runs |
| `IssuanceMeaning`, `Enrolled`, `Certified` | what an enrollment does in any state, field by field, and where certificates come from |
| `ScanMeaning`, `Accepted`, `Adoption`, `AuditChain` | what an accepted directory is like, and what the scan may adopt |
| `QuarantineMeaning` | when a quarantine refuses, and what it puts aside |
| `CleanState`, `Wreckage`, `WreckQuarantine`, `Finish`, `Recovery`, `Repair`, `CrashRecovery`, `Clash`, `EnrollmentRecovery`, `Uninterrupted` | every place an enrollment can stop, and exactly which are repaired |
| `Standing`, `Jammed`, `StoppedQuarantine`, `ForeignLog`, `RestoredQuarantine` | what no command undoes: stuck enrollments, quarantines cut short, and the log they leave |
| `Serials`, `Initialization`, `InitProgress`, `InitSteps`, `InitRoot`, `InitConvergence`, `InitResult`, `InitFresh`, `InitJournals`, `InitDeadEnds`, `InitDeadEndRuns`, `InitMeaning`, `FreshMeaning`, `InitDirectory` | the initialization journal |
| `Deletion`, `DeletionRuns`, `DeletionClient` | the client's key deletion |
| `RateLimiter`, `Readiness`, `Ecdsa`, `Notifications` | rate limit, readiness watcher, signature encoding, watcher records |
| `Witnesses` | the hypotheses on what the model leaves open can be met |

## Main results

- Signing. In any run of enrollments, scans and quarantines with stops anywhere, no two signatures share a serial (`SerialsNeverRecur`), and a key is signed for again only after an operator quarantined the earlier issuance (`SignedOncePerKey`). Every certificate on file or sent was the key's answer to an attempt for the same key and request, and it verified (`CertificatesAreVerified`). A client once answered is answered the same for good (`AnswersArePermanent`).
- Crash recovery. From a clean state, an enrollment stopped anywhere is repaired by the scan or by quarantining it, if and only if the state is neither wedged nor clashing (`StoppedEnrollmentIsRepairableExactlyWhen`). The operator's guide promises more: that an incomplete issuance can be completed at startup or quarantined. The code does not keep that promise in three families of states. Wedged: past COMPLETE, with the audit marker staged or the staging of the index entry or audit record torn. The scan refuses the staging file and quarantine refuses the completed issuance; every enrollment passes through such a state (`MarkerStopIsBeyondRepair`), and no later enrollment, scan or quarantine of any issuance ends it (`StuckForGood`). Clashing: the drawn issuance identifier is one that the reservation of a quarantined issuance still names; even an enrollment that succeeds then leaves a state no scan accepts again (`RepeatedIdentifierIsRefused`). The third starts from a quarantine, below.
- Quarantine cut short. Later commands can restore a clean state if and only if the destination was not made yet, or its second note is in place and nothing but an empty file is staged under the log's next number (`StoppedQuarantineIsRestoredExactlyWhen`). Between the two notes the scan refuses the state for good. With the second note in place and the quarantine's own audit record staged, torn or in full, the scan accepts the state, since it looks at no staging in the log; but every other record is refused under that number. No enrollment is answered 201 from then on (`AfterwardsNothingIsIssued`), and one that reaches COMPLETE is a stuck one: no later scan accepts the state and no quarantine of it succeeds (`AfterwardsCompletedIsStuck`). Both hold of every state whose log is blocked by a foreign record and whose recorded issuances are complete (`NothingNewIsIssued`, `CompletedIsStuck`), and a run reaches one (`ForeignLogIsReached`).
- Accepted states. What the scan accepts is a consistent, one-to-one cross-linked set of records, and scanning again changes nothing; `AcceptsExactly` spells it out file by file. `AnswerMeans`, `QuarantineMeans`, `ReconcileMeans`, `FreshMakes` and `AbandonMeans` say the same of the other commands: from any state, what a success has left, and when nothing is done.
- Initialization. Stopped anywhere and reconciled any number of times, one full run finishes, if and only if the validated key is on record and no staging file is torn; all root signatures are over the same bytes (`InitializationConverges`). After any run of the three commands, an active initialization can be finished or given up if and only if nothing is torn, the journal has begun, a finalized key has been validated, and neither an unexpected status nor an abandonment is on record (`EndsExactlyWhen`); otherwise no command ever succeeds (`DeadEndForGood`). Each way to get there is shown by a run, and every initialization that succeeds passes through two of them. Abandoning after a recorded finalization failure is allowed by the code and leaves a journal its own validator rejects, exactly then (`AbandonBreaksTheJournalExactlyWhen`).
- Readiness. A moment with `pending` false is validated if and only if the watcher is armed and not between a wait that reported something and the store that follows it; likewise for `ready`. So the readiness promise fails in two ways, each shown by a run. In the gap, `is_ready` is true although the change just reported is not validated (`ReadyInTheGap`). And when a wait fails at arming the watcher again and the replacement fails too, the next wait times out, the thread validates, and `is_ready` is true over a watcher that hears of no later change until another wait fails (`ReadyInSilence`, `DeafHearsNothing`); the program's README promises that a failed watcher is replaced before scanning. Unarmed means exactly that some wait failed at arming and no replacement has been registered since (`UnarmedMeans`). Readiness comes back: unless the thread is stopped or the mutex is held or poisoned, at most eleven quiet steps after any run make it true (`ReadinessReturns`).
- Deletion. Over any runs the key is gone only under a durable intent and is deleted at most once; only a run whose confirmation names the key changes anything (`OnlyConfirmedAct`); one fault-free run completes exactly when nothing half-written is in its way, and otherwise no later run that draws another operation ever gets further (`StalledForGood`).
- Rate limit. In any window one source is accepted at most 3 + ceil(window / 6 s) times (`RatesAreBounded`), and never refused before it has been accepted min(3, floor(window / 6 s)) times or everyone min(10, floor(window / 1 s)) times (`RefusalsAreEarned`).
- Signature encoding and watcher records: see the table.

## Model

| member | source | states |
|---|---|---|
| Publication.DurableBytes | crates/azihsm-ca/src/state.rs:1039-1099 | The publication algorithm, operation by operation, leaves what `Publish` says for every amount of fuel. |
| Publication.AdoptionCompletes | crates/azihsm-ca/src/state.rs:1022-1037 | Adopting the complete staging file of a stopped publication reaches the directory an uninterrupted one reaches; an existing destination is never adopted onto, and a refusal changes nothing. |
| Publication.DestinationIsAbsentOrExact | crates/azihsm-ca/src/state.rs:1039-1099 | Wherever publication stops, the destination is what it was or exactly the requested bytes, an existing one is never replaced, and no other name is touched. |
| Publication.PublishSucceedsExactlyWhen | crates/azihsm-ca/src/state.rs:1045-1068 | A complete run succeeds if and only if the destination is absent and the staging file is absent, empty or already holds the bytes. |
| Publication.RerunAfterCrash | crates/azihsm-ca/src/state.rs:1039-1099 | Rerunning after a stop reaches the directory an uninterrupted run reaches, except when the stop left a torn staging file, which then blocks with the destination untouched. |
| ClientFiles.StageFile | crates/azihsm-ca-client/src/files.rs:71-116 | The client's staging step, operation by operation. |
| ClientFiles.CommitIsExact | crates/azihsm-ca-client/src/files.rs:118-146 | Committing succeeds exactly when the destination or else the staging file holds the artifact, then changes nothing when repeated, and never touches an existing destination. |
| ClientFiles.ArtifactIsExactPublication | crates/azihsm-ca-client/src/files.rs:58-146 | Staging then committing is the authority's exact publication, cut short at the same places with the same remains. |
| ClientFiles.PublishedAgain | crates/azihsm-ca-client/src/files.rs:58-146 | Publishing the same artifact again succeeds and changes nothing; publishing another under its name is refused. |
| Validators.ValidateAuditChain | crates/azihsm-ca/src/authority.rs:1542-1582 | The loop accepts exactly the logs whose records are numbered without gap, each carry the digest of the one before, and name no issuance twice. |
| Validators.ValidateIdempotencyIndex | crates/azihsm-ca/src/authority.rs:1519-1540 | The loop accepts exactly when every index entry is the mapping in its issuance's commit, under its own key. |
| Validators.ReservationMatchesQuarantine | crates/azihsm-ca/src/authority.rs:1470-1499 | The search for a quarantine of the reservation's issuance and serial that holds an equal copy. |
| Validators.ValidateReservations | crates/azihsm-ca/src/authority.rs:1449-1517 | The two loops accept exactly when every reservation is readable and belongs to an active or quarantined issuance, none twice, and every issuance has one. |
| Validators.SortSorts | crates/azihsm-ca/src/authority.rs:1543-1544 | Sorting a listing permutes it into ascending order. |
| Inspection.InspectIssuance | crates/azihsm-ca/src/authority.rs:1021-1129 | The evidence loops find exactly the intent, reservation and staged reservation of the issuance, or refuse. |
| Inspection.CollectPending | crates/azihsm-ca/src/authority.rs:1076-1102 | At most one staged reservation belongs to the issuance, by content or by name, and it is found. |
| StateDirectories.StateDirectory.AppendAudit | crates/azihsm-ca/src/state.rs:1166-1181 | The record gets the next number and the digest of the record with the largest name. |
| StateDirectories.StateDirectory.EnsureIssuanceAudit | crates/azihsm-ca/src/authority.rs:1674-1711 | Searches the log in listing order and appends the certificate record only when there is none. |
| StateDirectories.StateDirectory.RecoverIssuanceCommit | crates/azihsm-ca/src/authority.rs:1611-1672 | Cross-checks the transaction, then publishes COMPLETE, index entry, audit record and marker in that order. |
| StateDirectories.StateDirectory.UniqueId | crates/azihsm-ca/src/authority.rs:2018-2029 | The first of eight draws that names no issuance directory. |
| StateDirectories.StateDirectory.UniqueSerial | crates/azihsm-ca/src/authority.rs:2031-2075 | The first of eight draws that is neither reserved nor bound by an intent, active or quarantined. |
| StateDirectories.StateDirectory.FindIssuanceByIdempotency | crates/azihsm-ca/src/authority.rs:1584-1609 | The first issuance under the key, refused when its request differs or it has no commit. |
| StateDirectories.StateDirectory.Issue | crates/azihsm-ca/src/authority.rs:829-995 | Replay, resumed commit, or a new enrollment, changing the directory in the source's order. |
| StateDirectories.StateDirectory.RecoverPendingPrecommitPublications | crates/azihsm-ca/src/authority.rs:1274-1362 | Adopts staged intents and reservations that fit, and fails on any other staging. |
| StateDirectories.StateDirectory.FullScan | crates/azihsm-ca/src/authority.rs:1380-1420 | The scan, with its validators as loops. |
| StateDirectories.StateDirectory.Quarantine | crates/azihsm-ca/src/authority.rs:997-1223 | The command, which keeps what the failed scan repaired, and moves the evidence in the source's order. |
| Advance.FullScanAdvances | crates/azihsm-ca/src/authority.rs:1380-1420 | However a scan ends, no finalized file changes or goes. |
| Adoption.AdoptsOnly | crates/azihsm-ca/src/authority.rs:1274-1362 | In any state and whatever the outcome, recovery of staging turns final only complete staged intents that name their directory and the authority, and complete staged reservations under their own name that an intent on file names back; it succeeds only with nothing left staged. |
| Adoption.IntentExactly | crates/azihsm-ca/src/authority.rs:1274-1320 | A staged intent is adopted if and only if it is complete and names its directory and the authority; it is an error if and only if it is neither empty nor a complete intent, or no operation is left to adopt it. |
| Adoption.ReservationExactly | crates/azihsm-ca/src/authority.rs:1320-1346 | A staged reservation is adopted if and only if it is complete, under its own free name, for this authority and an issuance whose intent names it back; otherwise it is an error. |
| Adoption.RecoversExactlyWhen | crates/azihsm-ca/src/authority.rs:1274-1362 | With operations enough, recovery of staging succeeds if and only if nothing is staged but intents that can be adopted and reservations that will then belong. |
| Adoption.StopsEarly | crates/azihsm-ca/src/authority.rs:1380-1394 | A pending initialization stops the scan before it touches anything, and a broken log before it recovers a commit. |
| Accepted.AcceptsExactly | crates/azihsm-ca/src/authority.rs:1380-1582 | The scan accepts a state and leaves it alone if and only if the state is as described file by file: every identifier, serial, size, digest, reservation, copy, index entry, audit entry and note; and what it accepts it has brought there. |
| Accepted.CompletedExactly | crates/azihsm-ca/src/authority.rs:1422-1447 | The completion check holds if and only if intent, record and COMPLETE agree in authority, identifier and serial and every digest and the size are those of the files. |
| IssuanceRuns.SerialsNeverRecur | crates/azihsm-ca/src/authority.rs:927-940 | Over every run of enrollments, scans and quarantines, all signatures carry distinct serials, each still reserved. |
| IssuanceRuns.SignedOncePerKey | crates/azihsm-ca/src/authority.rs:837-881 | A second signature under one idempotency key is preceded by the quarantine of the first issuance; without quarantines there is none. |
| IssuanceRuns.RepliesNeverChange | crates/azihsm-ca/src/authority.rs:846-881 | All answers under one key agree in request, issuance and bytes, repeats have status 200, and every answered issuance is complete on disk. |
| IssuanceRuns.RunKeepsInv | crates/azihsm-ca/src/authority.rs:829-1223 | The invariant behind these results is kept by every command, wherever it stops. |
| IssuanceMeaning.UniqueIdMeans | crates/azihsm-ca/src/authority.rs:2018-2029 | The identifier is the first draw that names no issuance directory, and there is none only when every draw names one. |
| IssuanceMeaning.UniqueSerialMeans | crates/azihsm-ca/src/authority.rs:2031-2075 | The serial is the first draw that no reservation holds and that no intent, active or moved, and no quarantine note names; the draws run out only when each is taken. |
| IssuanceMeaning.IssueGainsVerified | crates/azihsm-ca/src/authority.rs:939-966 | In any state and at every stop, a certificate that an attempt puts on file is the key's answer to it, the answer verified, the profile was accepted, and the intent beside it is for the request and attempt. |
| Certified.CertificatesAreVerified | crates/azihsm-ca/src/authority.rs:829-995 | Over every run with stops anywhere, each certificate on file and each certificate sent is the key's answer to an attempt of the run, the answer verified, and the attempt was for the same idempotency key and request. |
| Enrolled.RecoveryMeans | crates/azihsm-ca/src/authority.rs:1611-1711 | In any state, recovery succeeds only on four files that agree, leaves COMPLETE, index entry, audit record and marker with the contents that follow from them, and changes nothing when they disagree. |
| Enrolled.AnswerMeans | crates/azihsm-ca/src/authority.rs:829-995 | In any state, an answer is either 200, repeating the mapping on file and the certificate it names with no signature made, or 201, with a verified certificate, free draws, one signature, and all eight files and the audit record holding the request's and attempt's data field by field. |
| Enrolled.FindExactly | crates/azihsm-ca/src/authority.rs:1584-1609 | The first listed issuance with an intent that is unreadable or for the key decides: an error, a conflict for another request, incomplete without a commit, and otherwise the one to resume; with none the key is new. |
| Enrolled.ResumedIsAnswered | crates/azihsm-ca/src/authority.rs:861-881 | A commit found under the key is answered 200 with the certificate on file if and only if its recovery succeeds. |
| Enrolled.MappedIsRepeated | crates/azihsm-ca/src/authority.rs:837-860 | A mapped key is never signed for: another request is a conflict, and the same one is repeated if and only if the certificate the mapping names is on file. |
| Answers.IssueAnswers | crates/azihsm-ca/src/authority.rs:829-995 | An attempt adds at most one signature, and an answer exactly when it succeeds, for the key and request asked about. |
| Answers.RunRemembers | crates/azihsm-ca/src/authority.rs:829-1223 | Reservations are never removed or changed by any run. |
| Answers.AnswersArePermanent | crates/azihsm-ca/src/authority.rs:837-881 | After one success under a key, every later success after any further run is status 200 for the same request, issuance and bytes. |
| Answers.AnsweredIsNeverQuarantined | crates/azihsm-ca/src/authority.rs:1022-1027 | Quarantine refuses every answered issuance, in every reachable state, and its certificate stays. |
| ScanMeaning.ScanIsIdempotent | crates/azihsm-ca/src/authority.rs:1380-1420 | The scan leaves a state alone if and only if it is settled, and what it accepts it has settled. |
| ScanMeaning.AcceptedStateIsConsistent | crates/azihsm-ca/src/authority.rs:1380-1582 | In an accepted state, issuances and index entries correspond one to one, all records of an issuance name its directory, keys are not shared, and each issuance has exactly one certificate record. |
| ScanMeaning.ReservationsCorrespond | crates/azihsm-ca/src/authority.rs:1449-1517 | In an accepted state each issuance has exactly one reservation, and it carries the issuance's serial. |
| AuditChain.AppendKeepsChain | crates/azihsm-ca/src/state.rs:1166-1181 | Appending keeps the chain valid at every length, unless it records an issuance a second time. |
| AuditChain.LastDigestFixesTheChain | crates/azihsm-ca/src/authority.rs:1542-1582 | Under an injective hash, two valid chains of equal length with the same last digest are equal record by record. |
| AuditChain.PaddedOrderIsNumeric | crates/azihsm-ca/src/state.rs:1176 | Zero-padded names sort as their numbers do. |
| CleanState.CleanScans | crates/azihsm-ca/src/authority.rs:1380-1420 | A clean state is accepted by every scan unchanged. |
| Wreckage.BlockedWreckScan | crates/azihsm-ca/src/authority.rs:1274-1362 | Scanning an enrollment stopped before COMPLETE fails, but not for lack of operations, and leaves it one. |
| WreckQuarantine.BlockedWreckQuarantine | crates/azihsm-ca/src/authority.rs:997-1223 | Quarantining such an enrollment succeeds and restores a clean state, whatever staging it left. |
| QuarantineMeaning.InspectsExactly | crates/azihsm-ca/src/authority.rs:1021-1129 | In any state, the evidence is refused if and only if the issuance is complete, a file that must be read cannot be, an index entry names it, two reservations belong to it, the intent or reservation is foreign, or nothing identifies it; otherwise intent, reservation and staged reservation are found as they are. |
| QuarantineMeaning.QuarantineMeans | crates/azihsm-ca/src/authority.rs:997-1223 | In any state, after the scan's own repairs, a quarantine refuses with nothing more changed exactly when the evidence does, and a success has renamed the whole directory under a note of it, copied its reservations, removed only the staged one, closed the quarantine and recorded it at the end of the log, field by field. |
| Recovery.CommittedRecovers | crates/azihsm-ca/src/authority.rs:1611-1672 | Recovery of a committed issuance with any part of its publications done succeeds if and only if none is torn, and ends in the finished state. |
| Recovery.RecoveryConverges | crates/azihsm-ca/src/authority.rs:1611-1711 | Stopped recovery run again reaches the same files as one uninterrupted run, exactly when nothing was torn, and adds one audit record in all. |
| Repair.ScanFinishes | crates/azihsm-ca/src/authority.rs:1394-1404 | A scan finishes a committed issuance when nothing is staged in its directory and index and audit staging is not torn. |
| Standing.BlockedLogStays | crates/azihsm-ca/src/state.rs:1055-1067 | A log whose next record is staged, not empty and not with a certificate record, stands still under every run in which no quarantine writes that very record again. |
| Jammed.JamStays | crates/azihsm-ca/src/authority.rs:1347-1353 | A staged marker or torn index entry of a complete issuance outlasts every enrollment, scan and quarantine of any issuance; being missing from a blocked log outlasts every run that does not write the staged record again. |
| Jammed.StuckForGood | crates/azihsm-ca/src/authority.rs:1347-1353 | Past COMPLETE with the marker staged or index or audit staging torn, no scan accepts the state and no quarantine of the issuance succeeds, after any further commands. |
| EnrollmentRecovery.IssueStops | crates/azihsm-ca/src/authority.rs:829-995 | Every place an enrollment from a clean state can stop: nothing done, a blocked wreck, a committed issuance, a stuck one, or, under a remembered identifier, a bare directory or a clash. |
| EnrollmentRecovery.StoppedEnrollmentIsRepairableExactlyWhen | crates/azihsm-ca/src/authority.rs:829-1420 | From a clean state, any stop can be repaired by the scan or by a quarantine if and only if the state is neither wedged nor clashing, and success leaves a clean state if and only if it does not clash. |
| EnrollmentRecovery.RepeatedIdentifierIsRefused | crates/azihsm-ca/src/authority.rs:2018-2029 | A new enrollment that succeeds leaves a clean state if and only if no reservation named its identifier; otherwise every later scan refuses, whatever is run in between. |
| Clash.QuarantineKeepsClash | crates/azihsm-ca/src/authority.rs:1044-1075 | Quarantine refuses the clashing issuance and leaves the clash when it moves another. |
| StoppedQuarantine.QuarantineStops | crates/azihsm-ca/src/authority.rs:1149-1223 | Every place the quarantine of a wreck can stop: the wreck as it was, a partial destination, or all in place but the audit record. |
| StoppedQuarantine.StoppedQuarantineIsAcceptedExactlyWhen | crates/azihsm-ca/src/authority.rs:1407-1417 | Stop an enrollment where a quarantine would repair it, and then that quarantine anywhere: later commands can make the scan accept the state again if and only if the destination does not exist or its second note is in place. |
| RestoredQuarantine.StoppedQuarantineIsRestoredExactlyWhen | crates/azihsm-ca/src/authority.rs:1149-1223 | For every such stop, later commands can restore a clean state if and only if the destination does not exist, or its second note is in place and the staging of the log's next record is absent or empty; in the remaining states with both notes the scan still accepts. |
| RestoredQuarantine.AfterwardsNothingIsIssued | crates/azihsm-ca/src/authority.rs:1206-1223 | In those remaining states no enrollment is ever answered 201 again, whatever is run. |
| RestoredQuarantine.AfterwardsCompletedIsStuck | crates/azihsm-ca/src/authority.rs:1206-1223 | There, an issuance that reaches COMPLETE makes every later scan refuse the state, and every later quarantine refuses it. |
| RestoredQuarantine.ForeignLogIsReached | crates/azihsm-ca/src/authority.rs:1206-1223 | An enrollment stopped after its first operation, and its quarantine stopped with the audit record staged in full, lead to such a state. |
| ForeignLog.NothingNewIsIssued | crates/azihsm-ca/src/state.rs:1055-1067 | From any state whose log is blocked by a foreign record and whose recorded issuances are complete, no enrollment is answered 201 after any run. |
| ForeignLog.CompletedIsStuck | crates/azihsm-ca/src/authority.rs:1674-1711 | From any such state, an enrollment that reaches COMPLETE is refused for good by the scan and by its quarantine. |
| Uninterrupted.UninterruptedEnrollment | crates/azihsm-ca/src/authority.rs:882-995 | With nothing in the way, an enrollment answers 201 with the signed bytes and leaves a clean state. |
| Uninterrupted.EnrollmentAnswersExactlyWhen | crates/azihsm-ca/src/authority.rs:882-995 | From a clean state, with operations enough and an identifier no reservation remembers, an enrollment is answered 201 if and only if the draws are free, the profile is accepted, the key's answer verifies and the idempotency key is new. |
| Uninterrupted.RefusedEnrollmentLeaves | crates/azihsm-ca/src/authority.rs:893-944 | An enrollment refused on the way leaves a bare directory if the profile was not accepted, and the intent and the reservation as well if the key refused or its answer did not verify, with the matching error and no answer. |
| Uninterrupted.SecondAnswer | crates/azihsm-ca/src/authority.rs:837-860 | Asking again answers 200 with the same bytes; asking for something else is a conflict. |
| Uninterrupted.MarkerStopIsBeyondRepair | crates/azihsm-ca/src/authority.rs:1347-1353 | Every enrollment passes through a stop that cannot be repaired: the marker staged in full. |
| Uninterrupted.InitializedIsClean | crates/azihsm-ca/src/authority.rs:1940-1987 | The audit log a finished initialization leaves is one from which enrollment starts clean. |
| Serials.SerialRoundTrip | crates/azihsm-ca/src/authority.rs:517-530 | A text decodes to a serial if and only if it is that serial's text. |
| Serials.SerialTextIs | crates/azihsm-ca/src/authority.rs:2086-2092 | The text is the serial's number in thirty-two lower-case hexadecimal digits. |
| Serials.PositiveSerialIsPositive | crates/azihsm-ca/src/authority.rs:2077-2084 | Every drawn serial is positive and below 2^127. |
| Serials.PositiveSerialIs | crates/azihsm-ca/src/authority.rs:2077-2084 | The serial is the drawn number without its top bit, or one if nothing else is left. |
| InitDirectories.JournalWriter.Append | crates/azihsm-ca/src/authority.rs:2523-2549 | Writes the next generation, and moves the writer on only once it is durable. |
| InitDirectories.InitDirectory.ReadJournal | crates/azihsm-ca/src/authority.rs:1817-1861 | The loop over generations: names, identity, hash chain, parameters, then transitions. |
| InitDirectories.InitDirectory.ValidateJournal | crates/azihsm-ca/src/authority.rs:1770-1863 | Removes an empty staged generation, adopts a readable one, then reads the journal. |
| InitDirectories.ValidateTransitions | crates/azihsm-ca/src/authority.rs:1865-1893 | Accepts exactly the sequences that begin with Prepared and follow the table. |
| InitDirectories.InitDirectory.EnsureJournalRoot | crates/azihsm-ca/src/authority.rs:407-444 | The stored root, the staged root, or a new signature over the intent's TBS. |
| InitDirectories.InitDirectory.PublishInitTransaction | crates/azihsm-ca/src/authority.rs:569-599 | root.der, then authority.json, each exact. |
| InitDirectories.InitDirectory.EnsureInitializationAudit | crates/azihsm-ca/src/authority.rs:1940-1987 | Counts the matching records and appends one only when there is none. |
| InitDirectories.FreshInit | crates/azihsm-ca/src/authority.rs:111-197 | The command in the source's order, for every stop. |
| InitDirectories.Reconcile | crates/azihsm-ca/src/authority.rs:199-331 | The command in the source's order, for every stop. |
| InitDirectories.Abandon | crates/azihsm-ca/src/authority.rs:634-696 | The command in the source's order, for every stop. |
| InitProgress.ItemPublished | crates/azihsm-ca/src/authority.rs:111-197 | Publishing the next item in order keeps the invariant that a prefix of the publications is final and only the next may be staged. |
| InitSteps.JournalReads | crates/azihsm-ca/src/authority.rs:1770-1863 | A journal in progress is accepted and read as it is; an empty one is not. |
| InitSteps.ValidateShape | crates/azihsm-ca/src/authority.rs:1770-1863 | Validation succeeds if and only if some generation is readable and the staged one is not torn, and a readable staged generation then counts as written. |
| InitRoot.CreatedIntentHolds | crates/azihsm-ca/src/authority.rs:333-405 | Every intent made is one from which the certificate is rebuilt exactly. |
| InitResult.ReconcileConverges | crates/azihsm-ca/src/authority.rs:199-331 | After any stopped reconciles, one full run succeeds if and only if the key is on record and nothing is torn, and then there is nothing left to do. |
| InitResult.OneRootIsSigned | crates/azihsm-ca/src/authority.rs:232-279 | All root signatures of the operation are over the TBS of its durable signing intent. |
| InitResult.ReconcileAgain | crates/azihsm-ca/src/authority.rs:199-331 | Reconciling a completed initialization changes nothing, whatever fuel is left. |
| InitMeaning.JournalReadsExactly | crates/azihsm-ca/src/authority.rs:1817-1893 | In any directory, the journal reads as given generations if and only if they are all it holds, without a gap, each with its number, operation and the digest of the one before, in an order the table allows. |
| InitJournals.FollowsExactly | crates/azihsm-ca/src/authority.rs:1865-1893 | The table allows exactly the steps that a success, a failed finalization or an abandonment takes, except abandoning after a recorded failure. |
| InitMeaning.ValidationMeans | crates/azihsm-ca/src/authority.rs:1770-1863 | In any state, validation turns final only staged generations of the operation under their own numbers, and returns the journal that is then on file. |
| InitMeaning.IntentHoldsExactly | crates/azihsm-ca/src/authority.rs:367-405 | An intent is accepted if and only if it is for this operation and key, carries their digests, and its TBS is the one rebuilt from its own serial and time. |
| InitMeaning.BundleHoldsExactly | crates/azihsm-ca/src/authority.rs:532-567 | A publication record is accepted if and only if it and its authority are for this operation and key, the digests are those of its root, and the root verifies. |
| InitMeaning.RootMeans | crates/azihsm-ca/src/authority.rs:407-463 | In any state, a root is returned only if it is over the intent's TBS, verifies and is on file; nothing is signed when a root is on file, and nothing happens for an intent that does not hold. |
| InitMeaning.ReconcileMeans | crates/azihsm-ca/src/authority.rs:199-331 | In any state, no final file changes; success means a completed journal, intent, root, publication record, both published files and exactly one announcing audit record, all consistent and archived; and beyond validating the journal nothing happens unless the key opens and its finalization is on record. |
| InitMeaning.FreshActsOnlyWhen | crates/azihsm-ca/src/authority.rs:111-147 | A first run changes something only where nothing is published, pending or logged and no key of that name exists; each other case is refused with its own error and the state unchanged. |
| FreshMeaning.FreshMakes | crates/azihsm-ca/src/authority.rs:111-197 | From an empty directory, a success has written all eight generations with their times and evidence, the intent, root, publication record, authority and audit record, every field from the operation, the key and what the run met; the root is the key's one answer, and verifies. |
| InitMeaning.AbandonMeans | crates/azihsm-ca/src/authority.rs:634-696 | In any state, beyond validating the journal nothing happens unless the key is absent, the directory otherwise empty, nothing published and no phase on record past the start of finalization but a failure or a prepared signing; success has recorded both generations and the audit record, and archived the journal. |
| InitFresh.FreshStops | crates/azihsm-ca/src/authority.rs:111-197 | A first run stops empty, at a failed key, or where reconciling takes over; uninterrupted, it completes if and only if the directory holds nothing, no key of that name exists, and the key can be finalized and signs the root. |
| InitFresh.InitializationConverges | crates/azihsm-ca/src/authority.rs:111-331 | From an empty directory through any stops: one full reconcile succeeds if and only if nothing is torn, publishes the journal's own root, records it once, and no two different roots were signed. |
| InitJournals.JournalsStayValid | crates/azihsm-ca/src/authority.rs:1770-1893 | Whatever is run, the journal left is valid if and only if it was not abandoned after a recorded failure; a valid one has at most eight generations, never both a finalized key and a verified abandonment, and its phases vouch for their files. |
| InitDeadEnds.EndsExactlyWhen | crates/azihsm-ca/src/authority.rs:199-331 | After any run, a full reconcile or a full abandon of an active initialization succeeds if and only if it is finishable: the first when the key was finalized, the second when not. |
| InitDeadEnds.DeadEndForGood | crates/azihsm-ca/src/authority.rs:199-209 | An active initialization that is not finishable is refused by every command for good, whatever the key store answers. |
| InitDeadEnds.AbandonBreaksTheJournalExactlyWhen | crates/azihsm-ca/src/authority.rs:634-696 | A successful abandonment archives a journal its validator rejects if and only if a finalization failure was on record. |
| InitDeadEnds.AbandonAfterFailure | crates/azihsm-ca/src/authority.rs:634-696 | With a failure on record and nothing torn, a full abandon succeeds and breaks the journal if and only if the directory is empty and the key absent. |
| InitDeadEndRuns.EmptyJournalIsDead | crates/azihsm-ca/src/authority.rs:137-147 | A run stopped once the journal directory is made is a dead end. |
| InitDeadEndRuns.TornGenerationIsDead | crates/azihsm-ca/src/authority.rs:1787-1802 | So is one stopped while it writes the first generation. |
| InitDeadEndRuns.FinalizedKeyIsDead | crates/azihsm-ca/src/authority.rs:168-175 | So is one stopped between the records of the finalized and of the validated key. |
| InitDeadEndRuns.UnexpectedStatusIsDead | crates/azihsm-ca/src/authority.rs:150-155 | So is one whose key store answered with the unexpected status. |
| InitDeadEndRuns.BegunAbandonmentIsDead | crates/azihsm-ca/src/authority.rs:676-682 | So is an abandonment stopped after its first record. |
| InitDeadEndRuns.BegunAbandonmentOfFailureIsDead | crates/azihsm-ca/src/authority.rs:676-682 | The same after a recorded failure. |
| InitDeadEndRuns.FailureIsFinishable | crates/azihsm-ca/src/authority.rs:148-167 | A recorded failure is reached by a run and can be given up. |
| DeletionRuns.EnsureAbsentStep | crates/azihsm-ca-client/src/artifacts.rs:407-416 | Ending well means the key is gone; no file changes, and with a working key store and no fault it ends well. |
| DeletionClients.DeletionClient.RunDeletion | crates/azihsm-ca-client/src/artifacts.rs:350-441 | The protocol with its six fault points, changing files and key in the source's order. |
| DeletionRuns.DeletionIsSafe | crates/azihsm-ca-client/src/artifacts.rs:350-441 | Over any runs: the key is gone only under a durable intent, a record means it is gone and names the intent's operation, and it was deleted at most once. |
| DeletionRuns.StatusOnlyAdvances | crates/azihsm-ca-client/src/artifacts.rs:537-555 | Further runs never take the status back, nor change the intent or the record. |
| DeletionRuns.StatusMeans | crates/azihsm-ca-client/src/artifacts.rs:537-555 | In any state the status is completed, pending recovery or not requested if and only if, in turn, intent and record are on file and fit, only a fitting intent is, or neither is. |
| DeletionRuns.OnlyConfirmedAct | crates/azihsm-ca-client/src/artifacts.rs:280-294 | Over any runs, files, key and deletions change only through attempts whose confirmation names the key; every other attempt is refused and leaves all as it was. |
| DeletionRuns.SuccessMeans | crates/azihsm-ca-client/src/artifacts.rs:280-441 | In any state, success means that the confirmation names the key, that intent and record are on file and fit, and that the key is gone unless the record was there before; a key is deleted only under an intent for it on file. |
| DeletionRuns.FaultLeaves | crates/azihsm-ca-client/src/artifacts.rs:350-441 | Which files and which key each of the six faults leaves of an untouched key. |
| DeletionRuns.OneCleanRunCompletes | crates/azihsm-ca-client/src/artifacts.rs:350-441 | After any runs, one fault-free run completes if and only if its confirmation names the key and nothing half-written is in its way; the six faults alone leave nothing half-written. |
| DeletionRuns.StalledForGood | crates/azihsm-ca-client/src/files.rs:94-97 | While no run draws the operation of an intent staged in full: a fault-free run does not complete exactly when a record is staged but not in full, or an intent is staged with something in it; then every later run is refused and changes nothing. |
| RateLimiting.RefillIs | crates/azihsm-ca/src/http.rs:822-834 | A refilled bucket has one token more for each whole interval since its stamp, up to the cap, and its new stamp lies less than an interval back, so a started interval is kept. |
| RateLimiting.RateLimiter.AllowAt | crates/azihsm-ca/src/http.rs:805-820 | One decision on the two buckets, with eviction past 1024 sources. |
| RateLimiting.RefillComposes | crates/azihsm-ca/src/http.rs:822-834 | Refilling in between changes nothing: no fraction of an interval is lost. |
| RateLimiting.RefusalConsumesNothing | crates/azihsm-ca/src/http.rs:809-811 | After a refusal, every later moment sees the same tokens as without the request. |
| RateLimiting.AllowPays | crates/azihsm-ca/src/http.rs:805-820 | An acceptance costs a full interval of credit in both buckets, and eviction gives none. |
| RateLimiting.AcceptsExactlyWhen | crates/azihsm-ca/src/http.rs:805-820 | A request is accepted if and only if everyone and its source each have a whole interval of credit. |
| RateLimiting.OthersAreKept | crates/azihsm-ca/src/http.rs:812-818 | Another source's entry stays as it is, except that an acceptance with more than 1024 sources listed drops it if and only if it has been idle for sixty seconds. |
| RateLimiting.RatesAreBounded | crates/azihsm-ca/src/http.rs:805-834 | In any window of a run, one source is accepted at most 3 + ceil(window / 6 s) times and all together at most 10 + ceil(window / 1 s) times. |
| RateLimiting.RefusalsAreEarned | crates/azihsm-ca/src/http.rs:805-834 | In any run, a refusal at the end of a window means that the source was accepted min(3, floor(window / 6 s)) times in it, or everyone together min(10, floor(window / 1 s)) times. |
| RateLimiting.FirstRefusalIsEarned | crates/azihsm-ca/src/http.rs:805-820 | From the start, nothing is refused before three requests of its source or ten in all have been accepted. |
| Readiness.InvStep | crates/azihsm-ca/src/http.rs:655-738 | Every statement of the watcher and every move of the other parties keeps the invariant. |
| Readiness.ReadinessReturns | crates/azihsm-ca/src/http.rs:655-738 | After any run, unless the thread was stopped, a request holds the mutex or left it poisoned, at most eleven steps without events or failures make `ready` true and `pending` false. |
| Readiness.RoundsAreEntered | crates/azihsm-ca/src/http.rs:679-715 | A change, a registered replacement, a change returned by the drain and a replacement after the drain each lead straight into a round of revalidation, without another wait, and so many quiet steps later to `ready`. |
| Readiness.PoisonedStaysUnready | crates/azihsm-ca/src/http.rs:692-702 | Once the mutex is poisoned, no step makes `ready` true again, nor `pending` false, and no request issues again. |
| Readiness.NotPendingMeansValidated | crates/azihsm-ca/src/http.rs:670-690 | A moment with `pending` false is validated (the last revalidation succeeded, all reports were taken before it began, later changes are still queued in an armed watcher) if and only if the watcher is armed and holds no report it has not stored. |
| Readiness.ReadyMeansValidated | crates/azihsm-ca/src/http.rs:655-690 | A moment with `ready` true is validated if and only if the watcher is armed and holds no report it has not answered by lowering `ready`. |
| Readiness.ReadyAnswersAreValidated | crates/azihsm-ca/src/http.rs:539-541 | For a true `is_ready`, the moment of each load is validated if and only if no report is in hand and the watcher is armed; some moment between the loads is checked if and only if the watcher was not in the gap all that time, and validated if it was armed all that time. |
| Readiness.UnarmedMeans | crates/azihsm-ca/src/state.rs:370-375 | The watcher is unarmed if and only if arming it failed in some wait and no replacement has been registered since. |
| Readiness.DeafHearsNothing | crates/azihsm-ca/src/state.rs:395-397 | Until another wait fails, an unarmed watcher returns nothing but timeouts, whatever changes. |
| Readiness.ReadyInTheGap | crates/azihsm-ca/src/http.rs:667-670 | A run in which `is_ready` is true although the change just reported is not validated. |
| Readiness.ReadyInSilence | crates/azihsm-ca/src/http.rs:679-690 | A run in which `is_ready` is true, with nothing in hand, over an unarmed watcher. |
| Readiness.RevalidationExcludesIssuance | crates/azihsm-ca/src/http.rs:463-466 | Revalidation and issuance never overlap. |
| Ecdsa.EncodeInteger | crates/azihsm-ncrypt/src/signer.rs:96-110 | Skips zeros and writes tag, length, prefix and bytes; a zero component is refused. |
| Ecdsa.EncodeSignature | crates/azihsm-ncrypt/src/signer.rs:81-94 | The encoder. |
| Ecdsa.NonzeroCanonicalEcdsa | crates/azihsm-ca/src/csr.rs:82-110 | The recognizer's loop accepts exactly two canonical integers in a sequence that ends with the buffer. |
| Ecdsa.EncodedIsRecognized | crates/azihsm-ncrypt/src/signer.rs:81-110 | A signature is encoded if and only if it has sixty-four bytes and both halves are nonzero; the recognizer accepts the encoding, and it stands for the very signature. |
| Ecdsa.RecognizedIsEncoded | crates/azihsm-ca/src/csr.rs:82-110 | Every accepted encoding whose integers fit thirty-two bytes is the encoder's one output for its pair. |
| Ecdsa.EncodingIsUnique | crates/azihsm-ca/src/csr.rs:82-110 | Two accepted encodings of the same pair are equal. |
| Ecdsa.RecognizesExactly | crates/azihsm-ca/src/csr.rs:82-110 | A buffer is accepted as two integers if and only if both are canonical and positive, together below 252 octets, and the buffer is their sequence. |
| Ecdsa.ContentKeepsValue | crates/azihsm-ncrypt/src/signer.rs:96-110 | The encoded integer stands for the same number as the half. |
| Notifications.ValidateNotifications | crates/azihsm-ca/src/state.rs:456-507 | Ends on every buffer, reads only inside it, and accepts exactly those that hold a chain of well-formed records. |
| Notifications.ChainIsUnique | crates/azihsm-ca/src/state.rs:456-507 | An accepted buffer is read in one way only, and its records do not overlap. |
| Notifications.AcceptedSaysOne | crates/azihsm-ca/src/state.rs:456-507 | A buffer is accepted if and only if it says a list of changes, each of one of the five kinds with a whole name inside the buffer and linked past it, and it says only one. |
| Notifications.WordExactly | crates/azihsm-ca/src/state.rs:464-478 | A field reads as a number if and only if its four bytes are that number's, least significant first. |

## Left out

- EnrollmentRecovery.StoppedEnrollmentIsRepairableExactlyWhen: starts from a clean state, in which nothing is staged. Of a log with a foreign record staged, `ForeignLog` says what an enrollment comes to. Not covered: two enrollments stopped one after the other with no scan in between; the first can leave its certificate record staged in full, which the second's append refuses, and whether the scan then finishes both depends on the order in which it lists them.
- StoppedQuarantine.StoppedQuarantineIsAcceptedExactlyWhen: supposes that no later quarantine draws the same sixteen random bytes for its destination.
- RestoredQuarantine.StoppedQuarantineIsRestoredExactlyWhen: supposes that too, and that no later quarantine of the same issuance is stamped with the same instant, to the nanosecond; that one would write the staged record again.
- One quarantine stamps its two notes and its audit record with one number, where the program reads the clock three times.
- ScanMeaning.ReservationsCorrespond: the scan does not compare a reservation's file name with the serial it holds, so neither does the theorem.
- InitFresh.InitializationConverges: the key store keeps its promises in the last run (the key opens, its self-test passes, and it signs whatever it is asked to with a signature that verifies over it); earlier runs may meet anything.
- InitDeadEnds.EndsExactlyWhen: supposes the same of the key store for the reconcile, and an absent key and otherwise empty state directory for the abandon; the refusals need neither.
- DeletionRuns.OneCleanRunCompletes: likewise for the key store in the last run. A key of the same name with another public identity is not told apart from a key store that fails to open it: both refuse.
- InitJournals.JournalsStayValid: one operation per state directory, which the empty-namespace check of a fresh initialization enforces.
- Readiness.NotPendingMeansValidated: the operating system is taken to queue a change for a working watcher at the moment it happens; what a revalidation reads while it runs is not modelled, only that it began after the reports.
- Error classes are merged where nothing depends on them; the conditions under which a command fails are kept.
- An error reported after a rename (the read-back and directory flush of a publication) is not told apart from success: the files are the same.
- Size limits of files and buffers, access control, reparse points, links, state and file locks beyond "one command at a time", and directory flushing.
- Certificate and request parsing, profiles and chain checks: a signature is a call that may refuse, or answer with bytes that do or do not verify; the TBS is an unknown function of key, serial, time and validity.
- JSON texts: a file holds nothing, a torn document or a whole one, and equal documents have equal bytes; fields that are only copied (SANs, correlation identifier, profile texts) are one field or none.
- Time arithmetic overflow, RFC 3339 text, and the constant fields of the authority record.
- Timestamps of one run are arbitrary numbers; nothing is said about clocks going backwards, except that the rate limiter's theorems take request times in order, as a monotonic clock gives them.
- HTTP routing, admission limits and deadlines, TLS, command lines, logging and transcripts.
- Renewal and pruning of TLS server identities.
