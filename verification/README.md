# Trawl: a verified model of its ledger, capture lifecycle, policies and status

Trawl captures packets on request or by policy, keeps the captures for a retention period, and records
every privileged act in an audit ledger. This project models the parts of it that make claims about
whole runs and proves those claims for every run, every interleaving and every input.

* **Capture lifecycle** (`CaptureState`, `Lifecycle*`, `RetentionReconciler`, `CaptureReconciler`): one
  CaptureJob with its capture controller, retention controller, reporter, runner and admission gate as a
  state machine whose steps are single calls. Both controllers may read any version the object ever had,
  write by compare-and-swap, stop anywhere, and meet calls that fail with or without effect. The two
  reconcile passes are also given as methods in the shape of the source, each proved to be a stretch of
  a run.
* **Audit ledger** (`Ledger`, `SerialLedger`, `Sink`, `Replay`, `Replayer`, `ReplayRuns`, `ReplayPasses`):
  the two-object commit for any number of crashing committers, and ordered replay with a persisted
  cursor.
* **Policies** (`StableKeys`, `Dedup`, `PolicyEngine`, `EngineEvaluation`, `RateLimit`, `RateLimitRuns`,
  `PolicyStatus`, `PolicyStatusRuns`, `Threshold`, `ThresholdWindows`, `Template`, `TemplateErrors`):
  identities, create-or-get races, the trailing-hour limit, batched counters, the rolling threshold and
  filter templates.
* **Algorithms** (`Pcapng`, `PcapngGrammar`, `PcapngPackets`, `PcapngErrors`, `TapStatus`): the pcapng
  walker against a grammar, following the block framing of sections 3.1 and 4.1 of
  draft-ietf-opsawg-pcapng, and the heartbeat timer. `Options` and `Units` are shared by all.

`dafny verify dfyconfig.toml` checks everything.

## Assumptions

* Conditional writes are linearizable, status writes are compare-and-swap on the resource version, the
  hash is injective, encoding round-trips, listings are sorted, inclusive and full, and the clock is
  shared and monotone.
* The lifecycle uses the ledger through its guarantee for commits that do not overlap: a key keeps its
  first content, equal content is acknowledged, other content never is, and "unavailable" may or may not
  have written. `SerialLedger.AfterFirstAcknowledgement` is that guarantee.
* A capture is not being deleted and stays in the system namespace, and one worker at a time holds a
  capture in each controller. A policy is evaluated by one worker at a time where its hourly limit is
  concerned. A policy keeps its namespace and name for the life of its UID.
* A read of the runner Job reflects earlier writes to it, a runner Job is not deleted once created, and a
  Job that has ended has no runner still at work.
* Lifecycle times are whole seconds, as stored timestamps are.
* A decision that created or met a capture names it, as the engine's decisions do.

## Where the code falls short of a plain reading

* A record can say that a runner which delivered stored nothing: a pass holding an old version finds the
  bucket emptied by retention (`LifecycleStale.LedgerCanBlameADelivery`). Only such a pass writes one:
  a pass holding the stored version never does (`LifecycleTheorems.OnlyStalePassesBlame`). The stored
  status never says it.
* Overlapping commits of one key with different actions can both succeed; the record of one is lost
  (`SerialLedger.OverlapLosesARecord`). The source says as much where it explains the unconditional write.
* A policy status write that lands without being confirmed is counted again by the next flush
  (`PolicyStatusRuns.UnconfirmedCountsTwice`); `DecisionsAreConserved` gives the exact excess.
* Endpoint keys confuse an address without a port with one whose text ends in a colon and that port
  (`Dedup.EndpointKeysCollideExactlyWhen`). Flow and deduplication keys confuse texts only through a
  separator inside one of them (`Dedup.FlowKeysCollideExactlyWhen`, `Dedup.KeysCollideExactlyWhen`).
* An event that has left the threshold window is counted again if redelivered with a time that lies in the
  window or moves it (`Threshold.RedeliveryRejuvenates`). The count is exact throughout if and only if there
  is no such redelivery (`Threshold.ExactExactlyWhen`, `ThresholdWindows.EngineExactExactlyWhen`); on one
  clock, if and only if nothing is redelivered after its first delivery left the window
  (`Threshold.OneClock`).

Buckets are cooldown windows exactly when the cooldown is a second or more (`Dedup.BucketIsWindow`), which
is what policy admission demands of every cooldown.

## Model

| member | source | states |
|---|---|---|
| `Pcapng.CountAndHash` | internal/capture/manifest.go:185-270 | the reading loop returns, error for error, what the recursive reading of the whole stream says: packets, length, and every byte hashed once |
| `Pcapng.ReadKind` | internal/capture/manifest.go:193-254 | what the first bytes of a block announce, or the error they cause, agrees with the recursive reading; a header is the bytes 0A 0D 0D 0A, and a packet is a block of type 2, 3 or 6 |
| `Pcapng.ReadBody` | internal/capture/manifest.go:238-270 | length, contents and trailer of a block agree with the recursive reading, with the exact error otherwise |
| `PcapngGrammar.WalkPrinted` | internal/capture/manifest.go:185-260 | printing any list of sections, each in its own byte order, and walking it returns the number of packet blocks |
| `PcapngGrammar.ParseSections` | internal/capture/manifest.go:185-260 | a stream that is accepted and starts with a section header is the printed form of a non-empty list of sections |
| `PcapngPackets.WalkerAcceptsExactlyTheGrammar` | internal/capture/manifest.go:170-260 | success if and only if the stream is a printed non-empty list of sections; then size and hashed bytes are the whole stream and the packets are the number of its blocks of type 2, 3 or 6, for every such list |
| `PcapngPackets.PacketsCounted` | internal/capture/manifest.go:251-254 | the recursive count is the number of positions of blocks of type 2, 3 or 6 |
| `PcapngGrammar.CutsAreRejected` | internal/capture/manifest.go:191-260 | a cut of a well-formed stream is accepted only at the end of a block |
| `PcapngErrors.CutSaysWhatIsMissing` | internal/capture/manifest.go:191-260 | a cut inside a block is rejected with the error that says what that block is missing: its first bytes, its contents or its trailer; an empty stream as empty |
| `PcapngErrors.BadLength` | internal/capture/manifest.go:237-241 | a block that gives itself a length under 12 or not a multiple of four is rejected as such |
| `PcapngErrors.BadHeaderLength` | internal/capture/manifest.go:219-222 | so is a section header with one under 16 |
| `PcapngErrors.NoByteOrder` | internal/capture/manifest.go:211-218 | a magic that spells neither byte order is rejected as such |
| `PcapngErrors.NoHeader` | internal/capture/manifest.go:234-236 | a stream that does not start with a section header is rejected as such |
| `PcapngErrors.BadTrailer` | internal/capture/manifest.go:262-270 | a trailer that does not repeat the length is rejected as such |
| `CaptureState.FailureReasonForExitCode` | internal/capture/state.go:43-83 | the inverse of the exit codes the runner is given: each code that stands for a reason leads back to that reason, zero to none, and any other code to CaptureFailed |
| `CaptureState.GuardFiresExactlyWhen` | internal/capture/state.go:309-458 | no gathered observation makes Evaluate err, and the exact condition under which its phase would be an impossible transition |
| `CaptureState.EvaluateDecides` | internal/capture/state.go:309-458 | when each outcome is reached: completion, failure, cleanup, a new Job or a storage outage, each if and only if its condition holds; a completion carries the manifest's figures and times and the deadline |
| `CaptureState.EvaluateBlames` | internal/capture/state.go:427-458 | reason and message of an ended runner without an artifact: the reported reason, else that of the exit code, else the missing artifact after success, a missed deadline after or before a start, or nothing said |
| `CaptureState.EvaluateFollowsTheRunner` | internal/capture/state.go:322-331 | while storage is unreachable or the runner is at work the phase is Storing exactly if the end was reported or Storing was written, Capturing exactly if not that and the start was reported or Capturing was written, Pending otherwise |
| `CaptureState.EvaluateAwaitsARunner` | internal/capture/state.go:334-354 | without a runner, while one can still come, the capture is Pending |
| `CaptureState.FailureNamesItsPhase` | internal/capture/state.go:318-474 | the failed phase: as far as an ended runner had come, the phase last written for a vanished runner or a mismatch, Pending when no runner came; and a first attempt |
| `CaptureState.FailureWithoutRunner` | internal/capture/state.go:333-362 | reason and message when the runner vanished, its node is no target, or its tap is not active |
| `CaptureState.FailureOfTheArtifact` | internal/capture/state.go:318-320 | reason and message when the stored object does not match or has no manifest |
| `CaptureState.DownloadDecided` | internal/capture/state.go:532-553 | of any status: expired exactly if the phase says so or the deadline has passed, allowed exactly if every fact a download needs is there for the current generation |
| `LifecycleStatus.AppliedSays` | internal/controller/capturejob_controller.go:667-786 | the status a pass leads to: phase, generation, both conditions with their reasons as storage and DecideDownload have it, attempts counted up, an owed cleanup remembered, and the report untouched without a completion |
| `LifecycleStatus.ReobservedSays` | internal/controller/capturejob_controller.go:239-263 | an observed edit moves the deadline to completion plus the new retention, carries the verification over, and changes nothing else but the Downloadable condition |
| `LifecycleSteps.CaptureKeeps` | internal/controller/capturejob_controller.go:124-264 | every call of a capture pass, with any outcome and any staleness, keeps the lifecycle invariant |
| `LifecycleSteps.RetentionKeeps` | internal/controller/retention.go:115-310 | every call of a retention pass keeps the lifecycle invariant |
| `LifecycleSteps.WorldKeeps` | internal/admission/capturejob_webhook.go:159-207 | runner uploads, reporter writes, admitted retention edits and time keep the lifecycle invariant |
| `LifecycleSteps.EvaluateIsJustified` | internal/capture/state.go:309-458 | the outcome of a pass is supported by what the world holds even though it was read piecemeal |
| `LifecycleSteps.ApplyIsCandidate` | internal/controller/capturejob_controller.go:667-709 | the status an acknowledged outcome leads to is a legitimate next version if its write lands |
| `LifecycleSteps.ExpiryIsCandidate` | internal/controller/retention.go:247-255 | the Expired status is a legitimate next version if its write lands |
| `LifecycleSteps.ReobserveIsCandidate` | internal/controller/capturejob_controller.go:239-263 | a deadline moved by a retention edit never touches a capture whose download has been refused for its current deadline |
| `LifecycleSteps.EditAdmittedKeeps` | internal/admission/capturejob_webhook.go:178-192 | the gate admits no edit of a capture whose deletion may have begun |
| `LifecycleSteps.StepKeeps` | internal/controller/capturejob_controller.go:124-264 | one step of any actor keeps the lifecycle invariant |
| `LifecycleTheorems.RunKeepsInv` | internal/controller/capturejob_controller.go:124-264 | the invariant holds in every state of every run |
| `LifecycleTheorems.RunRemembers` | internal/controller/retention.go:287-310 | time, issued deletes and stored versions are never taken back |
| `LifecycleTheorems.DeletedIsNeverServed` | internal/controller/retention.go:115-310 | from the moment a delete of the artifact is issued, in every later state, the capture is Failed or past the deadline its current spec implies, and no download is ever allowed again |
| `LifecycleEvidence.ServedIsStored` | internal/capture/manifest.go:135-153 | whoever uploaded: a download is allowed only while object and manifest are stored, the attached checksum is the one in status and in the manifest, the length and packet count agree, and both belong to the capture; for an honest runner the object is the captured file |
| `LifecycleEvidence.StoredPhaseWasReported` | internal/capture/state.go:366-390 | in every run Capturing is stored only after a reported start and Storing only after a reported end |
| `LifecycleEvidence.StepShown` | internal/controller/capturejob_controller.go:441-482 | every step keeps what statuses, observations and outcomes claim backed by what is stored |
| `LifecycleTheorems.EditsKeepDownloadable` | internal/controller/capturejob_controller.go:239-263 | over every run: however many retention edits were admitted since a capture completed, once the current spec is observed it is downloadable exactly until the deadline that spec implies, with the result it completed with |
| `LifecycleTheorems.ServedExactlyWhen` | internal/capture/state.go:532-553 | in every run a download is allowed if and only if the capture is completed, its current spec has been observed, and that spec's retention has not run out since completion; refused as expired if and only if it has expired or its observed deadline has passed |
| `LifecycleTheorems.RetentionStaysValid` | internal/admission/capturejob_webhook.go:159-207 | in every run the stored retention is an hour at least and at most the ceiling |
| `LifecycleTheorems.GenerationCountsEdits` | internal/admission/capturejob_webhook.go:159-207 | in every run the generation moves, by one, exactly when the retention does, and never together with the status |
| `LifecycleTheorems.StoredPhaseIsRecorded` | internal/controller/capturejob_controller.go:578-640 | no phase is stored without its committed record; Failed carries reason and message; Expired has both expiry records and both keys absent |
| `LifecycleTheorems.DeliveredIsNotFailed` | internal/controller/capturejob_controller.go:287-306 | with a runner that delivers, no stored failure blames it under any interleaving, and before a delete is issued no record does |
| `LifecycleTheorems.FailsOnlyWithoutARunner` | internal/controller/capturejob_controller.go:491-544 | with a runner that delivers, the stored phase becomes Failed only while no runner Job exists, whatever reason a reporter may name |
| `LifecycleTheorems.CurrentPassBlamesNobody` | internal/controller/capturejob_controller.go:578-613 | a pass that holds the stored version and fails the capture has found that no runner could be had |
| `LifecycleTheorems.OnlyStalePassesBlame` | internal/controller/capturejob_controller.go:578-640 | in every run, a record that blames a delivery is written by a pass holding a version older than the stored one, and by no other step |
| `LifecycleStale.LedgerCanBlameADelivery` | internal/controller/capturejob_controller.go:441-482 | such passes do occur: for every runner that delivers there is a run in which the capture completes and expires as it should, and a pass holding its first version then records the artifact as never stored |
| `LifecycleStale.StalePassRecords` | internal/controller/capturejob_controller.go:441-482 | wherever a pass can hold an unfinished version with no reported result while the bucket is empty, it goes on to that record |
| `LifecycleTheorems.ReportedIsComputed` | internal/capture/runner.go:369-444 | size, digest and packet count of a Completed or Expired capture are what CountAndHash computes on the uploaded file |
| `LifecycleTheorems.StoredPhasesArePath` | internal/capture/state.go:85-133 | stored phases follow permitted transitions and change at most five times |
| `LifecycleTheorems.GuardNeverFires` | internal/controller/capturejob_controller.go:584-595 | in every run Evaluate succeeds and its phase is permitted, so the guard before the status write never fires |
| `LifecyclePaths.RunContinues` | internal/controller/retention.go:115-180 | a pass that starts where a run ends continues the run; both reconcilers are lifted to runs with it |
| `RetentionReconciler.RetentionReconciler.Reconcile` | internal/controller/retention.go:115-172 | a whole pass is a stretch of a run; with no faults a due capture ends Expired, recorded and with both keys gone, and a failed one is swept; whatever fails, nothing is deleted or recorded before the deadline, and captures with nothing to keep are left alone |
| `RetentionReconciler.RetentionReconciler.ReconcileIn` | internal/controller/retention.go:115-172 | a pass continues the run it starts in, so everything proved of runs holds after it |
| `RetentionReconciler.RetentionReconciler.ObservedDeadline` | internal/controller/retention.go:185-205 | the deadline is completion plus the current retention, written back only if it moved and only onto the version read |
| `RetentionReconciler.RetentionReconciler.Expire` | internal/controller/retention.go:213-259 | refuse, record, delete, verify, record, say so: in that order, stopping at the first failure |
| `RetentionReconciler.RetentionReconciler.DenyDownload` | internal/controller/retention.go:266-281 | nothing goes on unless the stored status refuses the download; exactly what is written |
| `RetentionReconciler.RetentionReconciler.RemoveArtifact` | internal/controller/retention.go:287-310 | success if and only if both deletes were reported done and both keys verified absent |
| `RetentionReconciler.RetentionReconciler.RemoveObject` | internal/controller/retention.go:292-309 | success if and only if the delete was reported done, the store answered the check, and the object is absent; exactly what became of the world |
| `RetentionReconciler.RetentionReconciler.RemoveManifest` | internal/controller/retention.go:292-309 | the same for the manifest |
| `RetentionReconciler.RetentionReconciler.MarkRetentionFailed` | internal/controller/retention.go:320-336 | a failed deletion rewrites the capture with the status it had, leaves every other record alone, and adds at most the fault record, exactly when the ledger takes it |
| `RetentionReconciler.RetentionReconciler.RecordExpiry` | internal/controller/retention.go:247-255 | Expired with the refusal is written last, onto the version read |
| `RetentionReconciler.RetentionReconciler.AuditExpiry` | internal/controller/retention.go:352-373 | acknowledged only if the ledger can hold this record under its key |
| `RetentionReconciler.RetentionReconciler.UpdateStatus` | internal/controller/retention.go:200-203 | a write lands only on the version that was read |
| `CaptureReconciler.CaptureJobReconciler.Reconcile` | internal/controller/capturejob_controller.go:124-228 | a whole pass is a stretch of a run; over an unfinished version it does exactly what the outcome of what it saw demands, whatever commit and write do, or only reports that it could not look; with no faults an ended Job whose artifact verifies makes the capture Completed with the manifest's figures and times, the deadline its retention implies, and downloadable |
| `CaptureReconciler.CaptureJobReconciler.ReconcileIn` | internal/controller/capturejob_controller.go:124-228 | a pass continues the run it starts in |
| `CaptureReconciler.CaptureJobReconciler.ReconcileLive` | internal/controller/capturejob_controller.go:181-228 | look, decide, act: the resulting world is that of the outcome of what was seen |
| `CaptureReconciler.CaptureJobReconciler.ReconcileTerminal` | internal/controller/capturejob_controller.go:233-264 | owed cleanup is retried and leaves the capture as it is; a moved deadline is written if that write lands on the version read; otherwise nothing changes |
| `CaptureReconciler.CaptureJobReconciler.Observe` | internal/controller/capturejob_controller.go:287-306 | exactly what is seen and when it cannot be: the Job, then the target if no runner was ever seen, and storage once the capture has ended |
| `CaptureReconciler.CaptureJobReconciler.LookupArtifact` | internal/controller/capturejob_controller.go:441-482 | verified, mismatched, absent or unavailable, each if and only if the stored owner, length and checksum, or the calls that failed, say so |
| `CaptureReconciler.CaptureJobReconciler.CreateRunner` | internal/controller/capturejob_controller.go:491-544 | created, rejected, failed or unconfirmed: the outcome, the Job and the status each leads to |
| `CaptureReconciler.CaptureJobReconciler.Persist` | internal/controller/capturejob_controller.go:578-613 | record before status: the resulting world for every outcome of both; an impossible phase drops the pass |
| `CaptureReconciler.CaptureJobReconciler.AuditTransition` | internal/controller/capturejob_controller.go:620-640 | acknowledged if and only if the ledger can hold this record under its key; exactly what is recorded |
| `CaptureReconciler.CaptureJobReconciler.ApplyAndWrite` | internal/controller/capturejob_controller.go:605-613 | the outcome's status is written, onto the version read, unless nothing moved |
| `CaptureReconciler.CaptureJobReconciler.Act` | internal/controller/capturejob_controller.go:193-219 | a Job if one is needed, then the status, then any cleanup: the resulting world |
| `CaptureReconciler.CaptureJobReconciler.DeleteArtifact` | internal/controller/capturejob_controller.go:891-908 | object before manifest, stopping at the first failure |
| `CaptureReconciler.CaptureJobReconciler.ReportUnavailable` | internal/controller/capturejob_controller.go:868-876 | a dependency failure changes nothing but the observed generation, and that only if its write lands on the version read |
| `CaptureReconciler.CaptureJobReconciler.WriteStatus` | internal/controller/capturejob_controller.go:878-886 | a write lands only on the version that was read |
| `Ledger.AdvanceKeeps` | internal/audit/sink.go:111-228 | every store call of a commit, with any fault, keeps claims fixed and records where their claims point |
| `Ledger.ClaimsNeverChange` | internal/audit/sink.go:133-152 | a claim never changes once made |
| `Ledger.OneRecordPerStableKey` | internal/audit/sink.go:155-176 | there is never a second record of a stable key, and a record names its own key |
| `Ledger.AcknowledgementsAgree` | internal/audit/sink.go:111-228 | all acknowledged commits of a key return one ledger key, which holds a record from then on |
| `Ledger.SameActionNeverConflicts` | internal/audit/sink.go:185-244 | if all commits of a key carry one action, none conflicts and the record holds that action |
| `SerialLedger.AcknowledgedIsStored` | internal/audit/sink.go:111-176 | without overlap, from its acknowledgement on a commit's key holds the content it asked for, committed when the acknowledgement says; a record it wrote itself has the time it asked for |
| `SerialLedger.AcknowledgedRequestIsStored` | internal/audit/sink.go:111-176 | the same of any request from the moment it is made: stable key, content, recorded and committed times |
| `SerialLedger.LateCommit` | internal/audit/sink.go:185-228 | where a commit begun after the record exists can stand |
| `SerialLedger.AfterFirstAcknowledgement` | internal/audit/sink.go:178-228 | without overlap, after the first acknowledgement the record is unchanged, the same action is a retry with its key, another a conflict, or either is unavailable |
| `SerialLedger.OverlapLosesARecord` | internal/audit/sink.go:155-168 | with overlap and different actions, an acknowledged record can be overwritten |
| `Sink.Bucket.Commit` | internal/audit/sink.go:111-152 | the method does, call by call, what one committer of the protocol does alone; without faults it answers the request as stated in its own terms |
| `Sink.Bucket.WriteRecord` | internal/audit/sink.go:160-176 | the write and its verification |
| `Sink.Bucket.ResolveExisting` | internal/audit/sink.go:185-228 | the claim, the record, and the three cases |
| `Sink.Bucket.PutIfAbsent` | internal/audit/sink.go:135-139 | the conditional write takes effect only on an absent key |
| `Sink.CommitMeans` | internal/audit/sink.go:85-152 | without faults: an unknown action or decision or a blank key is refused and changes nothing; a first commit stores the request's content with its recorded time, or now, committed now, under the key of that time; an unfinished claim is finished under its key; the same content is a retry, other content a conflict that changes nothing |
| `Replay.BeyondIsAfter` | internal/audit/sink.go:449-454 | an inclusive listing less the cursor's own object is what lies beyond the cursor, whether or not that object still exists |
| `Replay.ListIsInclusive` | internal/audit/sink.go:449-454 | a listing holds exactly the objects from the start key on, that key included |
| `Replay.SelectTakesFirst` | internal/audit/sink.go:333-347 | one page of limit + 1 is enough for the first limit objects beyond the cursor and the key after them |
| `Replay.ReplayBatch` | internal/audit/sink.go:324-374 | what a batch delivers, where it stops, its last key, its next key and its backlog |
| `Replay.DeliverPage` | internal/audit/sink.go:349-373 | the delivery loop stops at the first object that is not delivered |
| `Replay.ExactReplayBacklog` | internal/audit/sink.go:376-391 | a backlog is given exactly when the page was the last one |
| `Replay.OldestIsLeast` | internal/audit/sink.go:384-389 | the oldest time is attained and a lower bound |
| `Replay.SinkReplay` | internal/audit/sink.go:407-438 | the one-listing replay delivers up to the first failure |
| `Replay.SinkBacklog` | internal/audit/sink.go:465-481 | count and oldest time of what the cursor does not cover |
| `Replayer.BatchAdvances` | internal/audit/replayer.go:202-235 | a batch delivers all of the rest, at least one object of it, or stops exactly where the whole rest stops |
| `Replayer.Replayer.Turn` | internal/audit/replayer.go:202-235 | one turn of the loop and what it did to outcome, cursor and stream; the backlog is known exactly when the page listed was the last and the cursor was saved |
| `Replayer.Replayer.Replay` | internal/audit/replayer.go:191-244 | the pass terminates, delivers the one-listing sequence up to its stopping point unless a listing or save fails, never moves the cursor back, and reports the backlog of the persisted cursor: always when everything was delivered, and otherwise exactly when the batch that was stopped was the last |
| `Replayer.Replayer.Save` | internal/audit/replayer.go:220-227 | a save may take effect without being confirmed |
| `ReplayRuns.NothingSkipped` | internal/audit/replayer.go:191-244 | over all runs, every record at or below the persisted cursor has been delivered |
| `ReplayRuns.CursorNeverMovesBack` | internal/audit/replayer.go:217-227 | over all runs the cursor never moves back |
| `ReplayRuns.AtMostOneBatchRepeated` | internal/audit/replayer.go:214-216 | over all runs at most one batch of delivered records lies beyond the cursor |
| `ReplayPasses.PassCatchesUp` | internal/audit/replayer.go:202-235 | a pass that meets no fault goes on, without loading the cursor again, until everything beyond it is delivered and the cursor is at or past every record |
| `ReplayRuns.SelectIsPage` | internal/audit/sink.go:333-347 | the batch the sink selects is the page those runs deliver |
| `StableKeys.PreimageDecodable` | internal/audit/model.go:263-270 | the length-prefixed preimage determines its parts and their number |
| `StableKeys.AutomaticKeysDecodable` | internal/audit/model.go:259-261 | an automatic key determines action, object and step |
| `StableKeys.AdmissionKeysDecodable` | internal/audit/model.go:245-250 | an admission key determines request, action and decision |
| `StableKeys.KindsAreDistinct` | internal/audit/model.go:245-261 | no admission key is an automatic key |
| `StableKeys.JoinedAlike` | internal/policy/dedup.go:43-79 | texts joined by a separator are equal exactly when their parts are, or a separator inside one of them is read as the one between them |
| `StableKeys.DecimalIsNumeral` | internal/policy/template.go:163-173 | the decimal text of a number reads back as it, without leading zeros |
| `StableKeys.NumeralIsDecimal` | internal/policy/template.go:163-173 | and is the only such text |
| `Dedup.DirectionNeutral` | internal/policy/dedup.go:36-46 | a flow and its reverse have one key |
| `Dedup.FlowKeySpells` | internal/policy/dedup.go:40-45 | the key spells the protocol, then the endpoint that comes first in string order, then the other |
| `Dedup.LessMeans` | internal/policy/dedup.go:42-44 | string order: a proper prefix first, else the first difference decides |
| `Dedup.NoFlowIsApart` | internal/policy/dedup.go:36-39 | an event without a flow shares its key with none that has one |
| `Dedup.FlowKeysCollideExactlyWhen` | internal/policy/dedup.go:36-46 | for any two flows: they share a key exactly when protocol and endpoints, in either direction, spell the same, or a separator inside one of the texts makes them read alike |
| `Dedup.FlowKeyIdentifies` | internal/policy/dedup.go:36-46 | in texts free of the separator two flows share a key exactly when protocol and endpoints, in either direction, spell the same |
| `Dedup.EndpointKeysCollideExactlyWhen` | internal/policy/dedup.go:48-53 | endpoints are confused exactly when one has no port and an address that reads as the other with its port |
| `Dedup.EndpointCollision` | internal/policy/dedup.go:48-53 | two different endpoints with one key |
| `Dedup.BucketIsWindow` | internal/policy/dedup.go:70-71 | two events share a bucket exactly when they share a cooldown window, for all times, if and only if the cooldown is a second or more |
| `Dedup.BucketMeans` | internal/policy/dedup.go:70-71 | a bucket is the whole second in which the cooldown window of the event begins, or the event itself without a cooldown |
| `Dedup.KeysCollideExactlyWhen` | internal/policy/dedup.go:70-79 | for any taps, flows and times: keys are equal exactly when tap, conversation key and bucket are, or a NUL inside one of the texts makes them read alike |
| `Dedup.KeyIdentifies` | internal/policy/dedup.go:70-79 | for tap UIDs free of NUL the deduplication key determines tap, conversation key and bucket |
| `PolicyEngine.ActDecodable` | internal/controller/capturepolicy_engine.go:804-806 | the record key determines step, decision, policy and deduplication key |
| `PolicyEngine.EveryCaptureIsIntended` | internal/controller/capturepolicy_engine.go:438-448 | whatever races, every created capture has a committed intent of its policy |
| `PolicyEngine.OneCapturePerWindow` | internal/controller/capturepolicy_engine.go:396-474 | one tap, one conversation in either direction, one bucket: one capture |
| `PolicyEngine.RacersNeverConflict` | internal/controller/capturepolicy_engine.go:783-815 | an intent or a success is always one the ledger can acknowledge |
| `EngineEvaluation.Evaluator.Evaluate` | internal/controller/capturepolicy_engine.go:396-474 | one evaluation is a stretch of a run; a found capture, a reached limit and an unacknowledged intent end it with nothing created, and each outcome is reported if and only if its condition holds |
| `EngineEvaluation.Evaluator.Request` | internal/controller/capturepolicy_engine.go:430-474 | intent before work: what is created and what is recorded, with the words of each record |
| `EngineEvaluation.Evaluator.CreateAndRecord` | internal/controller/capturepolicy_engine.go:438-474 | created, already there or failed, each recorded as such |
| `EngineEvaluation.Evaluator.Commit` | internal/controller/capturepolicy_engine.go:783-815 | acknowledged only if the ledger can hold this record under its key |
| `RateLimit.UsageFrom` | internal/policy/rate_limit.go:50-60 | the loop computes the policy's summary |
| `RateLimit.UsageByPolicy` | internal/policy/rate_limit.go:67-77 | one pass gives every UID the summary a pass of its own would |
| `RateLimit.RecentIsCount` | internal/policy/rate_limit.go:79-83 | the recursive count is the number of captures requested after the given time |
| `RateLimit.SummaryMeans` | internal/policy/rate_limit.go:79-91 | the hourly figure is the number of captures asked for in the last hour as 32 bits show it, exactly that number while it fits; the last request is the latest one, attained, or the zero time if there is none |
| `RateLimit.LastIsLatest` | internal/policy/rate_limit.go:84-86 | the folded time is an upper bound of the policy's requests and one of them, or zero |
| `RateLimit.ActiveMeans` | internal/policy/rate_limit.go:87-108 | the active figure is the number of captures in no terminal phase as 32 bits show it, exactly that number while it fits |
| `RateLimitRuns.CheckMeasures` | internal/controller/capturepolicy_engine.go:416-423 | what the check measures is the true count of the trailing hour |
| `RateLimitRuns.CheckDecides` | internal/policy/rate_limit.go:144-149 | in every run the check lets a policy go on if and only if its captures of the trailing hour are fewer than the limit |
| `RateLimitRuns.CreatedCounts` | internal/policy/rate_limit.go:110-122 | a capture counts from the moment it is created |
| `RateLimitRuns.NoHourExceedsLimit` | internal/controller/capturepolicy_engine.go:416-436 | no hour of any run holds more captures of a policy than the limit in force at one of them, the last |
| `PolicyStatus.PolicyStatusTracker.Record` | internal/controller/capturepolicy_status.go:118-165 | one decision is added to its policy's batch |
| `PolicyStatus.PolicyStatusTracker.Add` | internal/controller/capturepolicy_status.go:133-164 | counter, capture, trigger time and tap of one decision |
| `PolicyStatus.PolicyStatusTracker.Take` | internal/controller/capturepolicy_status.go:220-226 | all pending batches are handed over at once |
| `PolicyStatus.PolicyStatusTracker.Restore` | internal/controller/capturepolicy_status.go:229-242 | an unwritten batch is merged under what was recorded since |
| `PolicyStatus.PolicyStatusTracker.Apply` | internal/controller/capturepolicy_status.go:245-295 | the stored status gains exactly the batch, or nothing |
| `PolicyStatus.PolicyStatusTracker.Flush` | internal/controller/capturepolicy_status.go:173-217 | every listed policy's total is conserved, counted twice only where a write landed unconfirmed |
| `PolicyStatusRuns.TallyCounts` | internal/controller/capturepolicy_status.go:133-154 | each counter is the number of results with its outcome |
| `PolicyStatusRuns.DecisionsAreConserved` | internal/controller/capturepolicy_status.go:95-295 | stored, pending and in flight equal what was recorded, plus exactly the batches whose writes landed unconfirmed |
| `PolicyStatusRuns.MatchedEqualsCaptures` | internal/controller/capturepolicy_status.go:133-136 | Matched stays equal to TotalCaptures |
| `PolicyStatusRuns.LastTriggerIsLatest` | internal/controller/capturepolicy_status.go:160-162 | once flushed, the stored trigger time is the latest recorded |
| `PolicyStatusRuns.LatestMeans` | internal/controller/capturepolicy_status.go:156-162 | that time is an upper bound of the recorded ones and one of them, or zero |
| `PolicyStatusRuns.LastCaptureIsLast` | internal/controller/capturepolicy_status.go:133-140 | once flushed, the stored capture is the one the last decision that created or met a capture points at |
| `PolicyStatusRuns.LastNamedMeans` | internal/controller/capturepolicy_status.go:133-140 | that decision is the last of its policy that created or met a capture |
| `PolicyStatusRuns.UnconfirmedCountsTwice` | internal/controller/capturepolicy_status.go:197-206 | one capture recorded, two reported, after an unconfirmed write |
| `Threshold.ThresholdWindow.Observe` | internal/policy/hubble.go:106-121 | the window becomes the specified one and its size is reported |
| `Threshold.ThresholdWindow.Expire` | internal/policy/hubble.go:128-135 | exactly the events before the cutoff are dropped |
| `Threshold.HoldsOnlyRecent` | internal/policy/hubble.go:106-135 | only times in [newest - window, newest] are held |
| `Threshold.FirstsAreFirst` | internal/policy/hubble.go:107-116 | what is counted: of the deliveries of each event exactly the earliest delivered one |
| `Threshold.DeliveryKeepsExact` | internal/policy/hubble.go:106-121 | one delivery leaves an exact window exact if and only if it does not revive an event whose first delivery has left the window |
| `Threshold.ExactExactlyWhen` | internal/policy/hubble.go:106-135 | for any order, repetitions and times: after every delivery the window holds exactly the events whose first delivery is recent, each with its first time, if and only if no delivery revives an event |
| `Threshold.ExactCounts` | internal/policy/hubble.go:119-119 | an exact window counts each event whose first delivery is recent, once |
| `Threshold.OneClock` | internal/policy/hubble.go:98-104 | when times come from one clock, events are revived exactly by deliveries repeated after their first has left the window |
| `Threshold.CountIsBruteForce` | internal/policy/hubble.go:106-135 | when each event carries one time, for any order and any duplicates, the count is the brute-force count of all deliveries |
| `Threshold.RedeliveryRejuvenates` | internal/policy/hubble.go:111-116 | a revival: an event that has left the window is counted again when redelivered with a later time |
| `ThresholdWindows.PolicyEngine.Observe` | internal/controller/capturepolicy_engine.go:565-583 | an event goes to the window of its policy and threshold |
| `ThresholdWindows.PolicyEngine.PruneWindows` | internal/controller/capturepolicy_engine.go:590-605 | exactly the windows of absent policies are dropped |
| `ThresholdWindows.KeptSince` | internal/controller/capturepolicy_engine.go:565-605 | the window held is what the deliveries since the threshold was set lead to |
| `ThresholdWindows.EngineExactExactlyWhen` | internal/controller/capturepolicy_engine.go:511-605 | since its threshold last changed or it was last absent, a policy's window is exact after every event of the engine if and only if no delivery to it revives an event |
| `ThresholdWindows.EngineCountIsBruteForce` | internal/controller/capturepolicy_engine.go:511-605 | then the engine's count is the brute-force count of the events whose first delivery, since the threshold last changed or the policy was last absent, is recent |
| `ThresholdWindows.ConsistentEngineCount` | internal/controller/capturepolicy_engine.go:511-605 | with one time per event, it is the count of all its recent events |
| `Template.ScanSpells` | internal/policy/template.go:37-37 | scanning for placeholders loses nothing |
| `Template.ScanFindsEvery` | internal/policy/template.go:37-37 | every placeholder in a text is found, and what is on either side of it is scanned by itself |
| `Template.HolesAreBraceFree` | internal/policy/template.go:37-37 | nothing else is taken for a placeholder |
| `Template.TrimMeans` | internal/policy/template.go:44-44 | trimming a name takes the white space off both ends and nothing else |
| `Template.ResolveMeans` | internal/policy/template.go:92-173 | a name resolves to v if and only if v is the flow's source or destination address, the decimal text that reads back as its source or destination port, or its protocol, as the name says |
| `Template.RendersExactlyWhen` | internal/policy/template.go:41-70 | a template renders to s if and only if s is its text with every placeholder replaced by what it stands for, printable, within 1024 bytes and without double braces |
| `Template.BytesMeans` | internal/capture/filter.go:36-39 | a character takes one byte, and one more from U+0080, from U+0800 and from U+10000 on |
| `TemplateErrors.ResolveErrs` | internal/policy/template.go:121-173 | each reason why a placeholder has no value, if and only if it applies |
| `TemplateErrors.RenderErrs` | internal/policy/template.go:41-70 | rendering fails for the first placeholder without a value, else for a brace left over, else for length or an unprintable character |
| `Template.RenderFilter` | internal/policy/template.go:41-70 | success always yields printable ASCII of at most 1024 bytes with no double brace |
| `Template.FillKeepsText` | internal/policy/template.go:43-50 | every character outside placeholders is kept in place, and each placeholder becomes what its trimmed name stands for |
| `Template.ShapeOfFilled` | internal/policy/template.go:57-68 | double braces and unprintable characters come from the text alone |
| `Template.AcceptedExactlyWhen` | internal/policy/template.go:184-211 | accepted if and only if template and residual fit, every placeholder is documented, and the text is printable without double braces |
| `TemplateErrors.ValidateErrs` | internal/policy/template.go:184-211 | which of the four refusals a template meets, each exactly when its condition holds and none before it does |
| `Template.AcceptedShape` | internal/policy/template.go:184-211 | an accepted template names only known placeholders and its text is harmless |
| `Template.AcceptedRenders` | internal/policy/template.go:184-211 | an accepted template renders for every flow that supplies its values, failing for length alone |
| `Template.AcceptedRendersForSuppliers` | internal/policy/template.go:120-130 | a flow with addresses, ports and a protocol supplies every accepted template |
| `TapStatus.SummarizeTargetStatus` | internal/controller/networktap_status.go:97-115 | the ready count is the number of fresh ready targets, and the last packet time is the latest one reported, attained, or none |
| `TapStatus.LastPacketIsLatest` | internal/controller/networktap_status.go:106-109 | the folded time is an upper bound of the reported packet times and one of them, or none |
| `TapStatus.ReadyIsCount` | internal/controller/networktap_status.go:97-115 | the ready count is the number of fresh targets with all analyzers healthy |
| `TapStatus.ProjectedAnalyzerHealth` | internal/controller/networktap_status.go:139-176 | the loop computes the projected health and names the unhealthy |
| `TapStatus.HealthyMeans` | internal/controller/networktap_status.go:139-176 | True means some target is fresh and every fresh one is healthy |
| `TapStatus.HealthMeans` | internal/controller/networktap_status.go:139-176 | False exactly if a fresh target reports an unhealthy analyzer, naming just those; True exactly if none does, some target is fresh and no fresh one is silent; and why otherwise |
| `TapStatus.NextHeartbeatExpiry` | internal/controller/networktap_status.go:124-137 | the time to the earliest expiry of a fresh target, zero if there is none |
| `TapStatus.ActiveIsEarned` | internal/controller/networktap_controller.go:461-472 | Active implies at least as many fresh healthy targets as matched |
| `TapStatus.PhaseMeans` | internal/controller/networktap_controller.go:461-472 | Error, Pending, Degraded and Active, each if and only if the reports, the matched targets and the workload say so |
| `TapStatus.ConstantUntilExpiry` | internal/controller/networktap_status.go:43-77 | nothing projected changes before the timer fires, ever if it is zero |
| `TapStatus.ExpiryIsReal` | internal/controller/networktap_status.go:117-137 | when it fires, a fresh target has become stale |

## Left out

- LifecycleTheorems.DeliveredIsNotFailed: the clause about ledger records holds only until a delete of the artifact is issued, because of the stale read shown by LifecycleStale.LedgerCanBlameADelivery; LifecycleTheorems.OnlyStalePassesBlame says of every run, deletes or not, that only a pass holding an older version blames a delivery.
- SerialLedger.AfterFirstAcknowledgement: states nothing about overlapping commits with different actions, which the protocol does not detect.
- PolicyStatusRuns.LastTriggerIsLatest: trigger times are whole seconds, the precision at which status stores them.
- RateLimitRuns.NoHourExceedsLimit: two workers evaluating one policy at the same time are outside it; the check and the create are separate calls.
- TapStatus.SummarizeTargetStatus: the ready count is not cut to 32 bits; it is bounded by the number of targets.
- Reporter, runner and admission gate appear as steps of the lifecycle, not as methods of their own; dumpcap control and upload deadlines are not part of this model.
- The finalizer and deletion path, and captures outside the system namespace.
- Validation of specs, which the lifecycle takes as valid, and the messages of conditions; only the conditions that later decisions read are kept.
- Policy status: the tap a batch remembers, which nothing reads.
- Sanitizing of records before they are committed; a request is as sanitized.
- Policy evaluation before deduplication: matching, tap resolution and job building only decide whether a worker goes on.
- JSON, SHA-256, HTTP, TLS, the object-store client, the Kubernetes client and caches, except as listed under Assumptions.
- Rendering of Jobs, DaemonSets and RBAC, metrics, trawlctl, port mirrors and token buckets.
- Requeue delays and the interface and tap recorded in status.
- Pending policy decisions are lost when a worker stops; the conservation law is about a worker's life.
- Counters of 64 bits are unbounded integers.
