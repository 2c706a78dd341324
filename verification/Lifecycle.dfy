/**
 One CaptureJob and everything that acts on it, as a state machine whose steps are single calls.

 The capture controller, the retention controller, the reporter, the runner and the admission gate on
 retention edits interleave freely.  Both controllers read any stored version of the object (a cache
 may be arbitrarily stale) and write it by compare-and-swap on its version; any pass may stop between
 calls; a call may take effect and still report failure, and a delete may report success without
 having taken effect.  The ledger appears through what it guarantees: a key keeps its first content,
 the same content is acknowledged, different content never is.
 */
module Lifecycle {
  import opened Options
  import opened Pcapng
  import opened CaptureState

  /** `honest`: the runner uploads the file it captured and a manifest of it.
      `reliable`: the runner stores both and exits successfully.
      `summary` is what the runner's walk of the file reports, if the walk succeeds. */
  datatype Config =
    Config(uid: string, file: seq<Byte>, summary: Option<Summary>, honest: bool, reliable: bool, ceiling: nat)

  predicate ValidConfig(cfg: Config) {
    match Summarize(cfg.file)
    case Ok(sum) => cfg.summary == Some(sum)
    case Err(_) => cfg.summary == None
  }

  const MIN_RETENTION: nat := 3600

  predicate ValidRetention(cfg: Config, r: nat) { MIN_RETENTION <= r <= cfg.ceiling }

  // ------------------------------------------------------------ ledger

  datatype Decision = Allow | Succeed | Fault

  datatype LedgerKey = TransitionKey(phase: Phase) | ExpiryKey(decision: Decision)

  datatype Entry = Entered(phase: Phase) | FailedFor(reason: FailureReason, message: Message) | Expiry(note: nat)

  type Ledger = map<LedgerKey, Entry>

  predicate CanAck(l: Ledger, k: LedgerKey, e: Entry) { k in l ==> l[k] == e }

  function Commit(l: Ledger, k: LedgerKey, e: Entry, written: bool): Ledger {
    if written && k !in l then l[k := e] else l
  }

  function TransitionEntry(o: Outcome): Entry {
    if o.failure.Some? then FailedFor(o.failure.value.reason, o.failure.value.message) else Entered(o.phase)
  }

  // ------------------------------------------------------------ storage and runner

  datatype StoredObject = StoredObject(bytes: seq<Byte>, sha: Option<seq<Byte>>, uid: Option<string>)

  datatype StoredManifest = Readable(manifest: Manifest) | Unreadable

  function Info(o: StoredObject): ObjectInfo { ObjectInfo(|o.bytes|, o.sha, o.uid) }

  /** `stage` counts the uploads that took effect: the object, then the manifest. */
  datatype Runner = NotStarted | Running(stage: nat) | Exited(stage: nat, ok: bool)

  function Stage(r: Runner): nat { if r.NotStarted? then 0 else r.stage }

  predicate PutsDone(r: Runner) { r.Exited? || Stage(r) == 2 }

  datatype RunnerJob = NoJob | ActiveJob | DoneJob(succeeded: bool, deadlineExceeded: bool)

  predicate HonestUpload(cfg: Config, o: StoredObject) {
    cfg.summary.Some? && o == StoredObject(cfg.file, Some(cfg.summary.value.hashed), Some(cfg.uid))
  }

  predicate HonestManifest(cfg: Config, m: Manifest) {
    cfg.summary.Some? && m.uid == cfg.uid && cfg.summary.value == Summary(m.packets, m.size, m.sha)
  }

  // ------------------------------------------------------------ passes

  datatype CapturePass =
    | CIdle
    | CRead(seen: CaptureJob)
    | CTarget(seen: CaptureJob, obs: Observation)
    | CObject(seen: CaptureJob, obs: Observation)
    | CNoObject(seen: CaptureJob, obs: Observation)
    | CManifest(seen: CaptureJob, obs: Observation, info: ObjectInfo)
    | CEvaluate(seen: CaptureJob, obs: Observation)
    | CCreate(seen: CaptureJob, obs: Observation, outcome: Outcome)
    | CPersist(seen: CaptureJob, obs: Observation, outcome: Outcome, hasJob: bool)
    | CApply(seen: CaptureJob, obs: Observation, outcome: Outcome, hasJob: bool)
    | CWrite(seen: CaptureJob, next: Status, cleanup: bool)
    | CDeleteObject(seen: CaptureJob)
    | CDeleteManifest(seen: CaptureJob)

  datatype After = ThenClock | ThenIntend | ThenFault(note: nat) | ThenStop

  datatype RetentionPass =
    | RIdle
    | RRead(seen: CaptureJob)
    | RClock(seen: CaptureJob)
    | RDeny(seen: CaptureJob)
    | RIntend(seen: CaptureJob)
    | RDeleteObject(seen: CaptureJob)
    | RHeadObject(seen: CaptureJob)
    | RDeleteManifest(seen: CaptureJob)
    | RHeadManifest(seen: CaptureJob)
    | ROutcome(seen: CaptureJob)
    | RExpire(seen: CaptureJob)
    | RFault(seen: CaptureJob, note: nat)
    | RWrite(seen: CaptureJob, next: Status, after: After)

  datatype EditPass = EIdle | EAdmitted(base: CaptureJob, retention: nat)

  /** What outlives a pass: the API object with every version it ever had, the bucket, the runner and
      its Job, the ledger, and whether a controller has issued a delete of the artifact object. */
  datatype World = World(
    now: nat,
    job: CaptureJob,
    history: seq<CaptureJob>,
    payload: Option<StoredObject>,
    manifest: Option<StoredManifest>,
    runner: Runner,
    runnerJob: RunnerJob,
    ledger: Ledger,
    deleteIssued: bool)

  datatype State = State(world: World, capture: CapturePass, retain: RetentionPass, edit: EditPass)

  function Write(w: World, j: CaptureJob): World { w.(job := j, history := w.history + [j]) }

  function Bump(seen: CaptureJob, next: Status): CaptureJob { seen.(version := seen.version + 1, status := next) }

  predicate Current(w: World, seen: CaptureJob) { seen.version == w.job.version }

  // ------------------------------------------------------------ status computations

  function Refusal(generation: nat): Condition { Condition(False, DownloadExpiredReason, generation) }

  /** The Downloadable condition is derived from everything else in status. */
  function SetDownloadable(j: CaptureJob, now: nat): Status {
    var c := match DecideDownload(j, now)
      case Allowed => Condition(True, Downloadable, j.generation)
      case DownloadExpired => Refusal(j.generation)
      case NotReady => Condition(False, if IsTerminal(j.status.phase) then NotDownloadable else StillPending,
                                 j.generation);
    j.status.(downloadable := Some(c))
  }

  function SetArtifactVerified(j: CaptureJob, obs: Observation, o: Outcome): Option<Condition> {
    if o.completion.Some? then Some(Condition(True, Verified, j.generation))
    else if o.storageUnavailable then Some(Condition(Unknown, StorageFailure, j.generation))
    else if obs.artifact.ArtifactMismatchState? then Some(Condition(False, ChecksumMismatch, j.generation))
    else if o.failure.Some? && obs.artifact.ArtifactPresent? then Some(Condition(False, StorageFailure, j.generation))
    else if o.failure.Some? then Some(Condition(False, Missing, j.generation))
    else j.status.artifactVerified
  }

  function WithFailure(s: Status, failure: Option<Failure>): Status {
    if failure.None? then s
    else if s.failure.None? then s.(failure := failure)
    else s.(failure := Some(failure.value.(attempts := s.failure.value.attempts + 1)))
  }

  function WithCompletion(s: Status, completion: Option<Completion>): Status {
    match completion
    case None => s
    case Some(c) =>
      s.(startedAt := Some(c.startedAt), captureEndedAt := Some(c.endedAt), completedAt := Some(c.completedAt),
         packetCount := Some(c.packets), sizeBytes := Some(c.size), sha256 := Some(c.sha), artifact := true,
         retentionDeadline := Some(c.deadline), failure := None)
  }

  function ApplyOutcome(j: CaptureJob, obs: Observation, o: Outcome, hasJob: bool, now: nat): Status {
    var s := j.status.(observedGeneration := j.generation, phase := o.phase,
                       runnerJobRef := j.status.runnerJobRef || hasJob,
                       artifactVerified := SetArtifactVerified(j, obs, o));
    SetDownloadable(j.(status := WithCompletion(WithFailure(s, o.failure), o.completion)), now)
  }

  function CarryForward(c: Option<Condition>, generation: nat): Option<Condition> {
    if c.Some? && c.value.generation < generation then Some(c.value.(generation := generation)) else c
  }

  /** A retention edit on a completed capture moves its deadline. */
  function ReobserveRetention(j: CaptureJob, now: nat): Status
    requires j.status.completedAt.Some?
  {
    SetDownloadable(
      j.(status := j.status.(observedGeneration := j.generation,
                             retentionDeadline := Some(j.status.completedAt.value + j.retention),
                             artifactVerified := CarryForward(j.status.artifactVerified, j.generation))), now)
  }

  predicate CleanupPending(j: CaptureJob) {
    && j.status.failure.Some?
    && (j.status.failure.value.reason.ArtifactMismatch? || j.status.failure.value.reason.UploadFailed?)
  }

  // ------------------------------------------------------------ capture controller

  datatype CaptureEvent =
    | CaptureReads(version: nat)
    | CaptureStops
    | CaptureReconcilesTerminal
    | CaptureSeesJob(exitCode: Option<int>)
    | CaptureSeesTarget(target: TargetState)
    | CaptureHeadsObject(reached: bool)
    | CaptureHeadsManifest(reached: bool)
    | CaptureGetsManifest(reached: bool)
    | CaptureReportsUnavailable(created: bool)
    | CaptureEvaluates
    | CaptureCreatesJob(rejected: bool)
    | CaptureCommits(acked: bool, written: bool)
    | CaptureApplies
    | CaptureWrites(landed: bool, acked: bool)
    | CaptureDeletes(landed: bool, acked: bool)

  /** The exit code is known only while the ended Job's pod still exists. */
  function ObserveJob(j: RunnerJob, exitCode: Option<int>): JobObservation {
    match j
    case NoJob => JobObservation(JobAbsent, false, None)
    case ActiveJob => JobObservation(JobActive, false, None)
    case DoneJob(ok, late) => JobObservation(if ok then JobSucceeded else JobFailed, late, exitCode)
  }

  /** Storage is consulted after the Job was read, and only when its answer can matter. */
  function AfterJob(seen: CaptureJob, obs: Observation): CapturePass {
    if ConsultsStorage(seen.status, obs.job.state) then CObject(seen, obs) else CEvaluate(seen, obs)
  }

  function SeeJob(w: World, seen: CaptureJob, exitCode: Option<int>): CapturePass {
    var obs := Observation(w.now, TargetUnknown, ObserveJob(w.runnerJob, exitCode), ArtifactUnknown);
    if obs.job.state.JobAbsent? && !seen.status.runnerJobRef then CTarget(seen, obs) else AfterJob(seen, obs)
  }

  function GetManifest(cfg: Config, w: World, info: ObjectInfo): ArtifactState {
    match w.manifest
    case None => ArtifactPresent
    case Some(Unreadable) => ArtifactPresent
    case Some(Readable(m)) =>
      if VerifyArtifact(m, cfg.uid, info) then ArtifactVerifiedState(Some(m)) else ArtifactMismatchState
  }

  /** A completed capture whose retention was edited since its status was last written. */
  predicate Outdated(j: CaptureJob) {
    j.status.phase.Completed? && j.status.observedGeneration != j.generation && j.status.completedAt.Some?
  }

  function ReconcileTerminal(seen: CaptureJob, now: nat): CapturePass {
    if seen.status.phase.Failed? && CleanupPending(seen) then CDeleteObject(seen)
    else if Outdated(seen) then CWrite(seen, ReobserveRetention(seen, now), false)
    else CIdle
  }

  function Decide(seen: CaptureJob, obs: Observation): CapturePass {
    match Evaluate(seen, obs)
    case Err(_) => CIdle
    case Ok(o) =>
      if o.action.ActionCreateJob? then CCreate(seen, obs, o)
      else CPersist(seen, obs, o, !obs.job.state.JobAbsent?)
  }

  function RejectedRunner(seen: CaptureJob): Outcome {
    Fail(seen.status.phase, RunnerCreateFailed, JobRejected, ActionNone)
  }

  predicate CaptureEnabled(s: State, e: CaptureEvent) {
    match e
    case CaptureReads(v) => s.capture.CIdle? && v < |s.world.history|
    case CaptureStops => true
    case CaptureReconcilesTerminal => s.capture.CRead? && IsTerminal(s.capture.seen.status.phase)
    case CaptureSeesJob(_) => s.capture.CRead? && !IsTerminal(s.capture.seen.status.phase)
    case CaptureSeesTarget(t) => s.capture.CTarget? && !t.TargetUnknown?
    case CaptureHeadsObject(_) => s.capture.CObject?
    case CaptureHeadsManifest(_) => s.capture.CNoObject?
    case CaptureGetsManifest(_) => s.capture.CManifest?
    case CaptureReportsUnavailable(created) =>
      || s.capture.CCreate?
      || (!created && s.capture.CTarget?)
      || (!created && s.capture.CRead? && !IsTerminal(s.capture.seen.status.phase))
    case CaptureEvaluates => s.capture.CEvaluate?
    case CaptureCreatesJob(_) => s.capture.CCreate?
    case CaptureCommits(acked, _) =>
      s.capture.CPersist? && s.capture.outcome.phase != s.capture.seen.status.phase &&
      (acked ==> CanAck(s.world.ledger, TransitionKey(s.capture.outcome.phase), TransitionEntry(s.capture.outcome)))
    case CaptureApplies =>
      s.capture.CApply? || (s.capture.CPersist? && s.capture.outcome.phase == s.capture.seen.status.phase)
    case CaptureWrites(landed, acked) =>
      s.capture.CWrite? && (landed ==> Current(s.world, s.capture.seen)) && (acked ==> landed)
    case CaptureDeletes(_, _) => s.capture.CDeleteObject? || s.capture.CDeleteManifest?
  }

  function CaptureStep(cfg: Config, s: State, e: CaptureEvent): State
    requires CaptureEnabled(s, e)
  {
    var c := s.capture;
    match e
    case CaptureReads(v) => s.(capture := CRead(s.world.history[v]))
    case CaptureStops => s.(capture := CIdle)
    case CaptureReconcilesTerminal => s.(capture := ReconcileTerminal(c.seen, s.world.now))
    case CaptureSeesJob(code) => s.(capture := SeeJob(s.world, c.seen, code))
    case CaptureSeesTarget(t) => s.(capture := AfterJob(c.seen, c.obs.(target := t)))
    case CaptureHeadsObject(reached) =>
      s.(capture := if !reached then CEvaluate(c.seen, c.obs.(artifact := ArtifactUnavailable))
                    else if s.world.payload.None? then CNoObject(c.seen, c.obs)
                    else CManifest(c.seen, c.obs, Info(s.world.payload.value)))
    case CaptureHeadsManifest(reached) =>
      var a := if !reached then ArtifactUnavailable
               else if s.world.manifest.None? then ArtifactAbsent else ArtifactPresent;
      s.(capture := CEvaluate(c.seen, c.obs.(artifact := a)))
    case CaptureGetsManifest(reached) =>
      var a := if reached then GetManifest(cfg, s.world, c.info) else ArtifactUnavailable;
      s.(capture := CEvaluate(c.seen, c.obs.(artifact := a)))
    case CaptureReportsUnavailable(created) =>
      s.(world := s.world.(runnerJob := if created && s.world.runnerJob.NoJob? then ActiveJob else s.world.runnerJob),
         capture := CWrite(c.seen, c.seen.status.(observedGeneration := c.seen.generation), false))
    case CaptureEvaluates => s.(capture := Decide(c.seen, c.obs))
    case CaptureCreatesJob(rejected) =>
      if rejected then s.(capture := CPersist(c.seen, c.obs, RejectedRunner(c.seen), false))
      else s.(world := s.world.(runnerJob := if s.world.runnerJob.NoJob? then ActiveJob else s.world.runnerJob),
              capture := CPersist(c.seen, c.obs, c.outcome, true))
    case CaptureCommits(acked, written) =>
      if Dropped(c.seen.status.phase, c.outcome.phase) then
        s.(capture := if c.outcome.action.ActionCleanupArtifact? then CDeleteObject(c.seen) else CIdle)
      else
        s.(world := s.world.(ledger := Commit(s.world.ledger, TransitionKey(c.outcome.phase),
                                              TransitionEntry(c.outcome), acked || written)),
           capture := if acked then CApply(c.seen, c.obs, c.outcome, c.hasJob)
                      else CWrite(c.seen, c.seen.status, false))
    case CaptureApplies =>
      s.(capture := CWrite(c.seen, ApplyOutcome(c.seen, c.obs, c.outcome, c.hasJob, s.world.now),
                           c.outcome.action.ActionCleanupArtifact?))
    case CaptureWrites(landed, acked) =>
      s.(world := if landed then Write(s.world, Bump(c.seen, c.next)) else s.world,
         capture := if acked && c.cleanup then CDeleteObject(Bump(c.seen, c.next)) else CIdle)
    case CaptureDeletes(landed, acked) =>
      if c.CDeleteObject? then
        s.(world := s.world.(deleteIssued := true, payload := if landed then None else s.world.payload),
           capture := if acked then CDeleteManifest(c.seen) else CIdle)
      else s.(world := s.world.(manifest := if landed then None else s.world.manifest), capture := CIdle)
  }

  // ------------------------------------------------------------ retention controller

  datatype RetentionEvent =
    | RetentionReads(version: nat)
    | RetentionStops
    | RetentionObservesDeadline
    | RetentionReadsClock
    | RetentionDenies
    | RetentionCommits(acked: bool, written: bool)
    | RetentionDeletes(landed: bool, acked: bool, note: nat)
    | RetentionHeads(reached: bool, note: nat)
    | RetentionExpires
    | RetentionWrites(landed: bool, acked: bool)

  predicate HasDeadline(j: CaptureJob) {
    j.status.completedAt.Some? && j.status.retentionDeadline == Some(j.status.completedAt.value + j.retention)
  }

  predicate Refused(j: CaptureJob) { j.status.downloadable == Some(Refusal(j.generation)) }

  /** Only a completed capture has a deadline; a failed one may have left objects to sweep. */
  function ObserveDeadline(seen: CaptureJob): RetentionPass {
    match seen.status.phase
    case Failed => RDeleteObject(seen)
    case Completed =>
      if seen.status.completedAt.None? then RIdle
      else if HasDeadline(seen) then RClock(seen)
      else
        var deadline := seen.status.completedAt.value + seen.retention;
        RWrite(seen, seen.status.(retentionDeadline := Some(deadline)), ThenClock)
    case _ => RIdle
  }

  function RetentionEntry(r: RetentionPass): (LedgerKey, Entry)
    requires r.RIntend? || r.ROutcome? || r.RFault?
  {
    match r
    case RIntend(_) => (ExpiryKey(Allow), Expiry(0))
    case ROutcome(_) => (ExpiryKey(Succeed), Expiry(0))
    case RFault(_, note) => (ExpiryKey(Fault), Expiry(note))
  }

  /** A deletion that did not happen: a completed capture is marked and the fault recorded. */
  function DeleteFailed(seen: CaptureJob, note: nat): RetentionPass {
    if seen.status.phase.Failed? then RIdle else RWrite(seen, seen.status, ThenFault(note))
  }

  function Resume(after: After, j: CaptureJob): RetentionPass {
    match after
    case ThenClock => RClock(j)
    case ThenIntend => RIntend(j)
    case ThenFault(note) => RFault(j, note)
    case ThenStop => RIdle
  }

  predicate RetentionEnabled(s: State, e: RetentionEvent) {
    match e
    case RetentionReads(v) => s.retain.RIdle? && v < |s.world.history|
    case RetentionStops => true
    case RetentionObservesDeadline => s.retain.RRead?
    case RetentionReadsClock => s.retain.RClock? && s.retain.seen.status.retentionDeadline.Some?
    case RetentionDenies => s.retain.RDeny?
    case RetentionCommits(acked, _) =>
      (s.retain.RIntend? || s.retain.ROutcome? || s.retain.RFault?) &&
      (acked ==> CanAck(s.world.ledger, RetentionEntry(s.retain).0, RetentionEntry(s.retain).1))
    case RetentionDeletes(_, _, _) => s.retain.RDeleteObject? || s.retain.RDeleteManifest?
    case RetentionHeads(_, _) => s.retain.RHeadObject? || s.retain.RHeadManifest?
    case RetentionExpires => s.retain.RExpire?
    case RetentionWrites(landed, acked) =>
      s.retain.RWrite? && (landed ==> Current(s.world, s.retain.seen)) && (acked ==> landed)
  }

  function RetentionStep(s: State, e: RetentionEvent): State
    requires RetentionEnabled(s, e)
  {
    var r := s.retain;
    match e
    case RetentionReads(v) => s.(retain := RRead(s.world.history[v]))
    case RetentionStops => s.(retain := RIdle)
    case RetentionObservesDeadline => s.(retain := ObserveDeadline(r.seen))
    case RetentionReadsClock =>
      s.(retain := if s.world.now < r.seen.status.retentionDeadline.value then RIdle else RDeny(r.seen))
    case RetentionDenies =>
      s.(retain := if Refused(r.seen) then RIntend(r.seen)
                   else RWrite(r.seen, r.seen.status.(downloadable := Some(Refusal(r.seen.generation))), ThenIntend))
    case RetentionCommits(acked, written) =>
      s.(world := s.world.(ledger := Commit(s.world.ledger, RetentionEntry(r).0, RetentionEntry(r).1,
                                            acked || written)),
         retain := if !acked || r.RFault? then RIdle else if r.RIntend? then RDeleteObject(r.seen) else RExpire(r.seen))
    case RetentionDeletes(landed, acked, note) =>
      if r.RDeleteObject? then
        s.(world := s.world.(deleteIssued := true, payload := if landed then None else s.world.payload),
           retain := if acked then RHeadObject(r.seen) else DeleteFailed(r.seen, note))
      else
        s.(world := s.world.(manifest := if landed then None else s.world.manifest),
           retain := if acked then RHeadManifest(r.seen) else DeleteFailed(r.seen, note))
    case RetentionHeads(reached, note) =>
      if r.RHeadObject? then
        s.(retain := if reached && s.world.payload.None? then RDeleteManifest(r.seen) else DeleteFailed(r.seen, note))
      else
        s.(retain := if !reached || s.world.manifest.Some? then DeleteFailed(r.seen, note)
                     else if r.seen.status.phase.Failed? then RIdle else ROutcome(r.seen))
    case RetentionExpires =>
      s.(retain := RWrite(r.seen, r.seen.status.(phase := Expired, downloadable := Some(Refusal(r.seen.generation))),
                          ThenStop))
    case RetentionWrites(landed, acked) =>
      s.(world := if landed then Write(s.world, Bump(r.seen, r.next)) else s.world,
         retain := if acked then Resume(r.after, Bump(r.seen, r.next)) else RIdle)
  }

  // ------------------------------------------------------------ everyone else

  datatype WorldEvent =
    | Tick(seconds: nat)
    | Touch
    | ReporterApplies(startedAt: Option<nat>, endedAt: Option<nat>, result: Option<RunnerResult>)
    | EditAdmitted(retention: nat)
    | EditCommits
    | EditAbandoned
    | RunnerStarts
    | RunnerPutsObject(upload: StoredObject, acked: bool)
    | RunnerPutsManifest(manifest: StoredManifest, acked: bool)
    | RunnerExits(ok: bool)
    | JobFinishes(succeeded: bool, deadlineExceeded: bool)

  predicate WorldEnabled(cfg: Config, s: State, e: WorldEvent) {
    match e
    case Tick(_) => true
    case Touch => true
    case ReporterApplies(_, _, _) => !s.world.runner.NotStarted?
    // ValidateUpdate: the old object is the stored one; retention must change, be valid, and the
    // deadline in status must not have passed.
    case EditAdmitted(r) =>
      && s.edit.EIdle? && r != s.world.job.retention && ValidRetention(cfg, r)
      && !s.world.job.status.phase.Expired?
      && (s.world.job.status.retentionDeadline.Some? ==> s.world.now < s.world.job.status.retentionDeadline.value)
    case EditCommits => s.edit.EAdmitted? && Current(s.world, s.edit.base)
    case EditAbandoned => true
    case RunnerStarts => s.world.runner.NotStarted? && s.world.runnerJob.ActiveJob?
    case RunnerPutsObject(o, acked) =>
      && s.world.runner == Running(0) && s.world.payload.None?
      && (cfg.honest ==> HonestUpload(cfg, o)) && (cfg.reliable ==> acked)
    case RunnerPutsManifest(m, acked) =>
      && s.world.runner == Running(1) && s.world.manifest.None? && (cfg.reliable ==> acked)
      && (cfg.honest ==> m.Readable? && HonestManifest(cfg, m.manifest))
    case RunnerExits(ok) => s.world.runner.Running? && (cfg.reliable ==> s.world.runner.stage == 2 && ok)
    case JobFinishes(_, _) =>
      && s.world.runnerJob.ActiveJob? && !s.world.runner.Running?
      && (cfg.reliable ==> s.world.runner.Exited?)
  }

  function WorldStep(s: State, e: WorldEvent): State
    requires e.EditCommits? ==> s.edit.EAdmitted?
    requires e.RunnerExits? ==> s.world.runner.Running?
  {
    var w := s.world;
    match e
    case Tick(d) => s.(world := w.(now := w.now + d))
    case Touch => s.(world := Write(w, Bump(w.job, w.job.status)))
    case ReporterApplies(a, b, r) =>
      var next := w.job.status.(startedAt := if a.Some? then a else w.job.status.startedAt,
                                captureEndedAt := if b.Some? then b else w.job.status.captureEndedAt,
                                runnerResult := if r.Some? then r else w.job.status.runnerResult);
      s.(world := Write(w, Bump(w.job, next)))
    case EditAdmitted(r) => s.(edit := EAdmitted(w.job, r))
    case EditCommits => s.(world := Write(w, Edited(s.edit.base, s.edit.retention)), edit := EIdle)
    case EditAbandoned => s.(edit := EIdle)
    case RunnerStarts => s.(world := w.(runner := Running(0)))
    case RunnerPutsObject(o, acked) =>
      s.(world := w.(payload := Some(o), runner := if acked then Running(1) else Exited(1, false)))
    case RunnerPutsManifest(m, acked) =>
      s.(world := w.(manifest := Some(m), runner := if acked then Running(2) else Exited(2, false)))
    case RunnerExits(ok) => s.(world := w.(runner := Exited(w.runner.stage, ok)))
    case JobFinishes(ok, late) => s.(world := w.(runnerJob := DoneJob(ok, late)))
  }

  function Edited(j: CaptureJob, retention: nat): CaptureJob {
    j.(version := j.version + 1, generation := j.generation + 1, retention := retention)
  }

  // ------------------------------------------------------------ runs

  datatype Event =
    | OfCapture(capture: CaptureEvent)
    | OfRetention(retention: RetentionEvent)
    | OfWorld(world: WorldEvent)

  predicate Enabled(cfg: Config, s: State, e: Event) {
    match e
    case OfCapture(c) => CaptureEnabled(s, c)
    case OfRetention(r) => RetentionEnabled(s, r)
    case OfWorld(w) => WorldEnabled(cfg, s, w)
  }

  function Step(cfg: Config, s: State, e: Event): State
    requires Enabled(cfg, s, e)
  {
    match e
    case OfCapture(c) => CaptureStep(cfg, s, c)
    case OfRetention(r) => RetentionStep(s, r)
    case OfWorld(w) => WorldStep(s, w)
  }

  const FRESH := Status(0, NoPhase, false, None, None, None, None, None, None, None, false, None, None, None, None)

  ghost predicate Init(cfg: Config, s: State) {
    && s == State(World(s.world.now, s.world.job, [s.world.job], None, None, NotStarted, NoJob, map[], false), CIdle,
                  RIdle, EIdle)
    && s.world.job == CaptureJob(s.world.now, s.world.job.retention, s.world.job.generation, 0, FRESH)
    && ValidRetention(cfg, s.world.job.retention)
  }

  /** `run` is a run: it starts fresh and every state follows from the one before by some event. */
  ghost predicate IsRun(cfg: Config, run: seq<State>) {
    && |run| > 0 && Init(cfg, run[0])
    && forall i :: 0 < i < |run| ==> Follows(cfg, run[i - 1], run[i])
  }

  ghost predicate Follows(cfg: Config, s: State, t: State) {
    exists e :: Enabled(cfg, s, e) && t == Step(cfg, s, e)
  }
}
