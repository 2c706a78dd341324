/**
 The CaptureJob decision functions: which phase the observed facts support, which phase
 changes the lifecycle permits, and whether an artifact may be served.

 Times are whole seconds.  Each constructor of `Message` stands for one fixed sentence.
 */
module CaptureState {
  import opened Options
  import opened Pcapng

  datatype Phase = NoPhase | Pending | Capturing | Storing | Completed | Failed | Expired

  datatype FailureReason =
    | InvalidFilter | InvalidBounds | TapInactive | TargetUnavailable | InterfaceUnavailable
    | RunnerCreateFailed | CaptureFailed | SizeExceeded | UploadFailed | ArtifactMissing
    | ArtifactMismatch | RetentionDeleteFailed | InternalError

  datatype Message =
    | MismatchRemoved | NoManifestRemoved | RunnerReported(reason: FailureReason)
    | ExitedWith(code: int, reason: FailureReason) | NoArtifactAfterSuccess | NeverStarted
    | DeadlineBeforeStoring | NoReportedReason | RunnerDisappeared | NodeNotATarget
    | TapNotActive | JobRejected

  datatype Failure = Failure(reason: FailureReason, message: Message, failedPhase: Phase, attempts: nat)

  // ------------------------------------------------------------ phases

  predicate IsTerminal(p: Phase) { p.Completed? || p.Failed? || p.Expired? }

  function PhaseOrder(p: Phase): (n: nat) {
    match p
    case NoPhase => 0
    case Pending => 1
    case Capturing => 2
    case Storing => 3
    case Completed => 4
    case Expired => 5
    case Failed => 0
  }

  predicate CanTransition(from: Phase, to: Phase) {
    if to.Failed? then !IsTerminal(from)
    else if IsTerminal(from) then from.Completed? && to.Expired?
    else PhaseOrder(to) > PhaseOrder(from)
  }

  // ------------------------------------------------------------ what is stored

  datatype Manifest = Manifest(uid: string, packets: nat, size: nat, sha: seq<Byte>, startedAt: nat, endedAt: nat)

  /** The object's size and the checksum and owner its uploader attached. */
  datatype ObjectInfo = ObjectInfo(size: nat, sha: Option<seq<Byte>>, uid: Option<string>)

  /** Does the stored object agree with its manifest and with the capture it should belong to? */
  predicate VerifyArtifact(m: Manifest, uid: string, info: ObjectInfo) {
    && m.uid == uid
    && (info.uid.Some? ==> info.uid.value == uid)
    && info.size == m.size
    && info.sha == Some(m.sha)
  }

  // ------------------------------------------------------------ the API object

  datatype ConditionStatus = True | False | Unknown

  datatype ConditionReason =
    | Verified | StorageFailure | ChecksumMismatch | Missing
    | Downloadable | DownloadExpiredReason | NotDownloadable | StillPending

  datatype Condition = Condition(status: ConditionStatus, reason: ConditionReason, generation: nat)

  datatype RunnerResult = RunnerResult(succeeded: bool, reason: Option<FailureReason>)

  datatype Status = Status(
    observedGeneration: nat,
    phase: Phase,
    runnerJobRef: bool,
    startedAt: Option<nat>,
    captureEndedAt: Option<nat>,
    runnerResult: Option<RunnerResult>,
    completedAt: Option<nat>,
    packetCount: Option<nat>,
    sizeBytes: Option<nat>,
    sha256: Option<seq<Byte>>,
    artifact: bool,
    retentionDeadline: Option<nat>,
    failure: Option<Failure>,
    artifactVerified: Option<Condition>,
    downloadable: Option<Condition>)

  datatype CaptureJob = CaptureJob(created: nat, retention: nat, generation: nat, version: nat, status: Status)

  // ------------------------------------------------------------ observations

  datatype JobState = JobAbsent | JobActive | JobSucceeded | JobFailed

  datatype JobObservation = JobObservation(state: JobState, deadlineExceeded: bool, exitCode: Option<int>)

  predicate Ended(o: JobObservation) { o.state.JobSucceeded? || o.state.JobFailed? }

  datatype ArtifactState =
    | ArtifactUnknown | ArtifactAbsent | ArtifactPresent | ArtifactVerifiedState(manifest: Option<Manifest>)
    | ArtifactMismatchState | ArtifactUnavailable

  datatype TargetState =
    TargetUnknown | TargetEligible | TargetTapMissing | TargetTapDeleting | TargetTapInactive | TargetNodeUnavailable

  datatype Observation = Observation(now: nat, target: TargetState, job: JobObservation, artifact: ArtifactState)

  datatype Action = ActionNone | ActionCreateJob | ActionCleanupArtifact

  datatype Completion = Completion(
    startedAt: nat, endedAt: nat, completedAt: nat, packets: nat, size: nat, sha: seq<Byte>, deadline: nat)

  datatype Outcome = Outcome(
    phase: Phase, failure: Option<Failure>, completion: Option<Completion>, action: Action, storageUnavailable: bool)

  datatype EvaluateError = TargetNotObserved | VerifiedWithoutManifest | ArtifactNotObserved

  // ------------------------------------------------------------ Evaluate

  const STALE_HEARTBEAT: nat := 90

  const EXIT_OK := 0

  /** The runner's exit code for a failure; zero for a reason the runner never produces. */
  function ExitCodeFor(r: FailureReason): int {
    match r
    case InvalidBounds => 10
    case InterfaceUnavailable => 11
    case InvalidFilter => 12
    case CaptureFailed => 13
    case SizeExceeded => 14
    case UploadFailed => 15
    case InternalError => 16
    case _ => EXIT_OK
  }

  /** An unrecognised code is a capture that failed for a reason the runner did not get to say. */
  function FailureReasonForExitCode(code: int): (r: Option<FailureReason>)
    ensures r.None? <==> code == EXIT_OK
    ensures forall reason :: ExitCodeFor(reason) == code != EXIT_OK ==> r == Some(reason)
    ensures r.Some? && ExitCodeFor(r.value) != code ==> r.value.CaptureFailed?
  {
    match code
    case 0 => None
    case 10 => Some(InvalidBounds)
    case 11 => Some(InterfaceUnavailable)
    case 12 => Some(InvalidFilter)
    case 13 => Some(CaptureFailed)
    case 14 => Some(SizeExceeded)
    case 15 => Some(UploadFailed)
    case 16 => Some(InternalError)
    case _ => Some(CaptureFailed)
  }

  function Quiet(p: Phase): Outcome { Outcome(p, None, None, ActionNone, false) }

  function Fail(phase: Phase, reason: FailureReason, message: Message, action: Action): Outcome {
    Outcome(Failed, Some(Failure(reason, message, if phase.NoPhase? then Pending else phase, 1)), None, action, false)
  }

  function Rank(p: Phase): nat {
    match p
    case Pending => 1
    case Capturing => 2
    case Storing => 3
    case _ => 0
  }

  /** The phase the reporter's facts imply, never behind the one already written. */
  function LivePhase(s: Status): (p: Phase) {
    var derived := if s.captureEndedAt.Some? then Storing else if s.startedAt.Some? then Capturing else Pending;
    if Rank(s.phase) > Rank(derived) then s.phase else derived
  }

  function Complete(job: CaptureJob, now: nat, manifest: Option<Manifest>): Result<Outcome, EvaluateError> {
    match manifest
    case None => Err(VerifiedWithoutManifest)
    case Some(m) =>
      Ok(Outcome(Completed, None,
                 Some(Completion(m.startedAt, m.endedAt, now, m.packets, m.size, m.sha, now + job.retention)),
                 ActionNone, false))
  }

  function FinishWithoutArtifact(job: CaptureJob, obs: Observation): Result<Outcome, EvaluateError> {
    var phase := LivePhase(job.status);
    var result := job.status.runnerResult;
    if obs.artifact.ArtifactUnknown? then Err(ArtifactNotObserved)
    else if obs.artifact.ArtifactPresent? then Ok(Fail(phase, UploadFailed, NoManifestRemoved, ActionCleanupArtifact))
    else if result.Some? && !result.value.succeeded && result.value.reason.Some? then
      Ok(Fail(phase, result.value.reason.value, RunnerReported(result.value.reason.value), ActionNone))
    else if obs.job.exitCode.Some? && obs.job.exitCode.value != EXIT_OK then
      var reason := FailureReasonForExitCode(obs.job.exitCode.value).value;
      Ok(Fail(phase, reason, ExitedWith(obs.job.exitCode.value, reason), ActionNone))
    else if obs.job.state.JobSucceeded? then Ok(Fail(phase, ArtifactMissing, NoArtifactAfterSuccess, ActionNone))
    else if obs.job.deadlineExceeded then
      if job.status.startedAt.None? then Ok(Fail(phase, InternalError, NeverStarted, ActionNone))
      else Ok(Fail(phase, CaptureFailed, DeadlineBeforeStoring, ActionNone))
    else Ok(Fail(phase, InternalError, NoReportedReason, ActionNone))
  }

  function WithoutRunner(job: CaptureJob, obs: Observation): Result<Outcome, EvaluateError> {
    if job.status.runnerJobRef then Ok(Fail(job.status.phase, InternalError, RunnerDisappeared, ActionNone))
    else
      match obs.target
      case TargetEligible => Ok(Quiet(Pending).(action := ActionCreateJob))
      case TargetUnknown => Err(TargetNotObserved)
      case t =>
        if obs.now - job.created < 2 * STALE_HEARTBEAT then Ok(Quiet(Pending))
        else if t.TargetNodeUnavailable? then Ok(Fail(Pending, TargetUnavailable, NodeNotATarget, ActionNone))
        else Ok(Fail(Pending, TapInactive, TapNotActive, ActionNone))
  }

  /** The one outcome the observed facts support. */
  function Evaluate(job: CaptureJob, obs: Observation): (r: Result<Outcome, EvaluateError>) {
    if IsTerminal(job.status.phase) then Ok(Quiet(job.status.phase))
    else
      match obs.artifact
      case ArtifactVerifiedState(m) => Complete(job, obs.now, m)
      case ArtifactMismatchState => Ok(Fail(job.status.phase, ArtifactMismatch, MismatchRemoved, ActionCleanupArtifact))
      case ArtifactUnavailable => Ok(Quiet(LivePhase(job.status)).(storageUnavailable := true))
      case _ =>
        if obs.job.state.JobSucceeded? || obs.job.state.JobFailed? then FinishWithoutArtifact(job, obs)
        else if obs.job.state.JobActive? then Ok(Quiet(LivePhase(job.status)))
        else WithoutRunner(job, obs)
  }

  predicate ConsultsStorage(s: Status, state: JobState) {
    state.JobSucceeded? || state.JobFailed? || s.captureEndedAt.Some? || s.phase.Storing?
  }

  /** Observations that gathering the facts can produce: the target is looked at while there is no
      runner, storage once the runner ended or said it did. */
  predicate Gathered(job: CaptureJob, obs: Observation) {
    && !IsTerminal(job.status.phase)
    && (obs.job.state.JobAbsent? && !job.status.runnerJobRef ==> !obs.target.TargetUnknown?)
    && (obs.artifact.ArtifactUnknown? <==> !ConsultsStorage(job.status, obs.job.state))
    && (obs.artifact.ArtifactVerifiedState? ==> obs.artifact.manifest.Some?)
  }

  /** Evaluate never errs on what can be gathered, and the guard before the status write drops a pass
      exactly when a capture past Pending has no runner, no record of one and no verdict from storage
      while a runner could still be started. */
  lemma GuardFiresExactlyWhen(job: CaptureJob, obs: Observation)
    requires Gathered(job, obs)
    ensures Evaluate(job, obs).Ok?
    ensures Dropped(job.status.phase, Evaluate(job, obs).value.phase) <==>
            && Rank(job.status.phase) > 1 && obs.job.state.JobAbsent? && !job.status.runnerJobRef
            && !Decisive(obs.artifact)
            && (obs.target.TargetEligible? || obs.now - job.created < 180)
  {
  }

  /** The artifact's state decides on its own. */
  predicate Decisive(a: ArtifactState) {
    a.ArtifactVerifiedState? || a.ArtifactMismatchState? || a.ArtifactUnavailable?
  }

  /** No runner is there and none can come: it vanished, or its target stayed ineligible past the grace period. */
  predicate Hopeless(job: CaptureJob, obs: Observation) {
    && obs.job.state.JobAbsent?
    && (job.status.runnerJobRef || (!obs.target.TargetEligible? && obs.now - job.created >= 180))
  }

  /** When each outcome is reached, whatever the order in which the facts are looked at. */
  lemma EvaluateDecides(job: CaptureJob, obs: Observation)
    requires Gathered(job, obs)
    ensures Evaluate(job, obs).Ok?
    ensures Evaluate(job, obs).value.phase.Completed? <==> obs.artifact.ArtifactVerifiedState?
    ensures Evaluate(job, obs).value.phase.Failed? <==>
            obs.artifact.ArtifactMismatchState? || (!Decisive(obs.artifact) && (Ended(obs.job) || Hopeless(job, obs)))
    ensures Evaluate(job, obs).value.action.ActionCleanupArtifact? <==>
            obs.artifact.ArtifactMismatchState? || (Ended(obs.job) && obs.artifact.ArtifactPresent?)
    ensures Evaluate(job, obs).value.action.ActionCreateJob? <==>
            && !Decisive(obs.artifact) && obs.job.state.JobAbsent? && !job.status.runnerJobRef
            && obs.target.TargetEligible?
    ensures Evaluate(job, obs).value.storageUnavailable <==> obs.artifact.ArtifactUnavailable?
    ensures Evaluate(job, obs).value.phase.Completed? ==> Evaluate(job, obs).value.completion.Some?
    ensures Evaluate(job, obs).value.completion.Some? ==> Delivers(Evaluate(job, obs).value.completion.value, job, obs)
  {
  }

  /** A completion carries the verified manifest's figures and the deadline its own time implies. */
  predicate Delivers(c: Completion, job: CaptureJob, obs: Observation) {
    && obs.artifact.ArtifactVerifiedState? && obs.artifact.manifest.Some?
    && var m := obs.artifact.manifest.value;
       && c.packets == m.packets && c.size == m.size && c.sha == m.sha
       && c.startedAt == m.startedAt && c.endedAt == m.endedAt
       && c.completedAt == obs.now && c.deadline == obs.now + job.retention
  }

  /** What the runner reported as its failure, if it did. */
  function ReportedReason(s: Status): Option<FailureReason> {
    if s.runnerResult.Some? && !s.runnerResult.value.succeeded then s.runnerResult.value.reason else None
  }

  /** What its exit code says, if it is known. */
  function ExitReason(o: JobObservation): Option<FailureReason> {
    if o.exitCode.Some? then FailureReasonForExitCode(o.exitCode.value) else None
  }

  /** How far the reporter's facts and the phase already written say the capture has come. */
  predicate Reflects(p: Phase, s: Status) {
    var stored := s.captureEndedAt.Some? || s.phase.Storing?;
    var started := s.startedAt.Some? || s.phase.Capturing?;
    && (p.Storing? <==> stored)
    && (p.Capturing? <==> started && !stored)
    && (p.Pending? <==> !started && !stored)
  }

  /** While storage cannot be reached or the runner is at work, the phase is the furthest one the facts show. */
  lemma EvaluateFollowsTheRunner(job: CaptureJob, obs: Observation)
    requires Gathered(job, obs)
    requires obs.artifact.ArtifactUnavailable? || (obs.job.state.JobActive? && !Decisive(obs.artifact))
    ensures Evaluate(job, obs).Ok? && Reflects(Evaluate(job, obs).value.phase, job.status)
  {
  }

  /** Until a runner is there, or hope for one is given up, the capture is pending. */
  lemma EvaluateAwaitsARunner(job: CaptureJob, obs: Observation)
    requires Gathered(job, obs) && obs.job.state.JobAbsent? && !Decisive(obs.artifact) && !Hopeless(job, obs)
    ensures Evaluate(job, obs).Ok? && Evaluate(job, obs).value.phase.Pending?
  {
  }

  /** A failure says in which phase it happened: a runner that ended failed as far as it had come, one that
      vanished or stored the wrong thing in the phase last written, and a runner that never came while
      pending. */
  lemma FailureNamesItsPhase(job: CaptureJob, obs: Observation)
    requires Gathered(job, obs) && Evaluate(job, obs).value.phase.Failed?
    ensures Evaluate(job, obs).value.failure.Some? && Evaluate(job, obs).value.failure.value.attempts == 1
    ensures var at := Evaluate(job, obs).value.failure.value.failedPhase;
      && (Ended(obs.job) && !obs.artifact.ArtifactMismatchState? ==> Reflects(at, job.status))
      && (obs.job.state.JobAbsent? && !job.status.runnerJobRef && !obs.artifact.ArtifactMismatchState? ==> at.Pending?)
      && (obs.artifact.ArtifactMismatchState? || (obs.job.state.JobAbsent? && job.status.runnerJobRef) ==>
            (at == job.status.phase || (at.Pending? && job.status.phase.NoPhase?)) && !at.NoPhase?)
  {
  }

  /** Why a capture fails when no artifact decides it and no runner ended: the runner it had is gone, or its
      node or its tap stayed ineligible. */
  lemma FailureWithoutRunner(job: CaptureJob, obs: Observation)
    requires Gathered(job, obs) && Hopeless(job, obs) && !Decisive(obs.artifact)
    ensures Evaluate(job, obs).Ok? && Evaluate(job, obs).value.failure.Some?
    ensures var f := Evaluate(job, obs).value.failure.value;
      if job.status.runnerJobRef then f.reason.InternalError? && f.message.RunnerDisappeared?
      else if obs.target.TargetNodeUnavailable? then f.reason.TargetUnavailable? && f.message.NodeNotATarget?
      else f.reason.TapInactive? && f.message.TapNotActive?
  {
  }

  /** What is removed from storage and why: an artifact that does not match, or one without a manifest. */
  lemma FailureOfTheArtifact(job: CaptureJob, obs: Observation)
    requires Gathered(job, obs)
    requires obs.artifact.ArtifactMismatchState? || (Ended(obs.job) && obs.artifact.ArtifactPresent?)
    ensures Evaluate(job, obs).Ok? && Evaluate(job, obs).value.failure.Some?
    ensures var f := Evaluate(job, obs).value.failure.value;
      if obs.artifact.ArtifactPresent? then f.reason.UploadFailed? && f.message.NoManifestRemoved?
      else f.reason.ArtifactMismatch? && f.message.MismatchRemoved?
  {
  }

  /** Of an ended runner without an artifact, its own report is believed first, then its exit code; then
      whether its Job succeeded, and whether it ran out of time, decide. */
  lemma EvaluateBlames(job: CaptureJob, obs: Observation)
    requires Gathered(job, obs) && Ended(obs.job) && obs.artifact.ArtifactAbsent?
    ensures Evaluate(job, obs).Ok? && Evaluate(job, obs).value.failure.Some?
    ensures var f, late := Evaluate(job, obs).value.failure.value, obs.job.deadlineExceeded;
      match (ReportedReason(job.status), ExitReason(obs.job))
      case (Some(r), _) => f.reason == r && f.message == RunnerReported(r)
      case (None, Some(r)) => f.reason == r && f.message == ExitedWith(obs.job.exitCode.value, r)
      case (None, None) =>
        if obs.job.state.JobSucceeded? then f.reason.ArtifactMissing? && f.message.NoArtifactAfterSuccess?
        else if !late then f.reason.InternalError? && f.message.NoReportedReason?
        else if job.status.startedAt.None? then f.reason.InternalError? && f.message.NeverStarted?
        else f.reason.CaptureFailed? && f.message.DeadlineBeforeStoring?
  {
  }

  predicate Dropped(from: Phase, to: Phase) { to != from && !CanTransition(from, to) }

  // ------------------------------------------------------------ serving

  datatype DownloadDecision = Allowed | NotReady | DownloadExpired

  predicate IsTrue(c: Option<Condition>, generation: nat) {
    c.Some? && c.value.status.True? && c.value.generation >= generation
  }

  function DecideDownload(job: CaptureJob, now: nat): (d: DownloadDecision) {
    var s := job.status;
    if s.retentionDeadline.Some? && now >= s.retentionDeadline.value then DownloadExpired
    else if s.phase.Expired? then DownloadExpired
    else if !s.phase.Completed? || s.failure.Some? then NotReady
    else if !s.artifact || s.sha256.None? || s.retentionDeadline.None? then NotReady
    else if s.observedGeneration != job.generation then NotReady
    else if !IsTrue(s.artifactVerified, job.generation) then NotReady
    else Allowed
  }

  /** Of any status, reachable or not: expiry dominates, and nothing is served unless every fact a download needs
      is there and belongs to the current generation. */
  lemma DownloadDecided(job: CaptureJob, now: nat)
    ensures var s := job.status;
      && (DecideDownload(job, now).DownloadExpired? <==>
            s.phase.Expired? || (s.retentionDeadline.Some? && s.retentionDeadline.value <= now))
      && (DecideDownload(job, now).Allowed? <==>
            && s.phase.Completed? && s.failure.None? && s.artifact && s.sha256.Some?
            && s.retentionDeadline.Some? && now < s.retentionDeadline.value
            && s.observedGeneration == job.generation
            && s.artifactVerified.Some? && s.artifactVerified.value.status.True?
            && s.artifactVerified.value.generation >= job.generation)
  {
  }
}
