/** What every step of the lifecycle keeps. */
module LifecycleInvariant {
  import opened Options
  import opened Pcapng
  import opened CaptureState
  import opened Lifecycle

  // ------------------------------------------------------------ one stored version

  predicate Finished(j: CaptureJob) { j.status.phase.Completed? || j.status.phase.Expired? }

  /** The download is refused for the deadline the current spec implies.  From here on the gate is
      closed, so neither the retention nor the deadline can move. */
  predicate Sealed(j: CaptureJob) { Finished(j) && HasDeadline(j) && Refused(j) }

  /** A completed capture has everything a download needs, for the generation its status describes. */
  predicate Servable(j: CaptureJob) {
    && j.status.artifact && j.status.sha256.Some? && IsTrue(j.status.artifactVerified, j.status.observedGeneration)
    && (j.status.observedGeneration == j.generation ==> HasDeadline(j))
  }

  predicate Sound(cfg: Config, j: CaptureJob) {
    && ValidRetention(cfg, j.retention) && j.status.observedGeneration <= j.generation
    && (j.status.phase.Completed? ==> Servable(j))
    && (Finished(j) ==> j.status.completedAt.Some? && j.status.failure.None?)
    && (Finished(j) <==> j.status.retentionDeadline.Some?)
    && (j.status.phase.Failed? ==> j.status.failure.Some?)
    && (j.status.downloadable.Some? ==> j.status.downloadable.value.generation <= j.generation)
    && (Finished(j) && Refused(j) ==> HasDeadline(j))
  }

  // ------------------------------------------------------------ two stored versions

  predicate SameResult(a: Status, b: Status) {
    && a.completedAt == b.completedAt && a.packetCount == b.packetCount && a.sizeBytes == b.sizeBytes
    && a.sha256 == b.sha256 && a.artifact == b.artifact && a.failure == b.failure
  }

  predicate StaysSealed(a: CaptureJob, b: CaptureJob) {
    Sealed(b) && b.retention == a.retention && b.status.retentionDeadline == a.status.retentionDeadline
  }

  /** b was stored at or after a. */
  predicate Since(a: CaptureJob, b: CaptureJob) {
    && a.version <= b.version && (a.version == b.version ==> a == b)
    && (a.status.phase.Failed? ==> b.status.phase.Failed?)
    && (a.status.phase.Completed? ==> Finished(b))
    && (a.status.phase.Expired? ==> b.status.phase.Expired?)
    && (IsTerminal(a.status.phase) ==> SameResult(a.status, b.status))
    && (Sealed(a) ==> StaysSealed(a, b))
  }

  /** b was stored right after a. */
  predicate Successor(a: CaptureJob, b: CaptureJob) {
    && b.version == a.version + 1
    && !Dropped(a.status.phase, b.status.phase)
    && (IsTerminal(a.status.phase) ==> SameResult(a.status, b.status))
    && (Sealed(a) ==> StaysSealed(a, b))
  }

  lemma SinceSuccessor(a: CaptureJob, b: CaptureJob, c: CaptureJob)
    requires Since(a, b) && Successor(b, c)
    ensures Since(a, c)
  {
  }

  // ------------------------------------------------------------ a version and the world

  predicate NeedsRunner(s: Status) {
    Rank(s.phase) > 1 || s.startedAt.Some? || s.captureEndedAt.Some? || s.runnerJobRef
  }

  predicate Recorded(l: Ledger, j: CaptureJob) {
    match j.status.phase
    case NoPhase => true
    case Failed =>
      && TransitionKey(Failed) in l && j.status.failure.Some?
      && l[TransitionKey(Failed)] == FailedFor(j.status.failure.value.reason, j.status.failure.value.message)
    case Expired =>
      && ExpiryKey(Allow) in l && ExpiryKey(Succeed) in l
      && TransitionKey(Completed) in l && l[TransitionKey(Completed)] == Entered(Completed)
    case p => TransitionKey(p) in l && l[TransitionKey(p)] == Entered(p)
  }

  /** Failures that are decided before a runner exists. */
  predicate BeforeRunner(r: FailureReason) { r.TapInactive? || r.TargetUnavailable? || r.RunnerCreateFailed? }

  predicate Promising(cfg: Config) { cfg.honest && cfg.reliable }

  predicate Reports(s: Status, sum: Option<Summary>) {
    && sum.Some? && s.packetCount == Some(sum.value.packets)
    && s.sizeBytes == Some(sum.value.size) && s.sha256 == Some(sum.value.hashed)
  }

  predicate Supported(cfg: Config, w: World, j: CaptureJob) {
    && (Sealed(j) ==> j.status.retentionDeadline.value <= w.now)
    && (NeedsRunner(j.status) ==> !w.runnerJob.NoJob?)
    && (Finished(j) ==> Stage(w.runner) == 2)
    && Recorded(w.ledger, j)
    && (Finished(j) && cfg.honest ==> Reports(j.status, cfg.summary))
    && (j.status.phase.Failed? && Promising(cfg) ==>
          j.status.failure.Some? && BeforeRunner(j.status.failure.value.reason))
    && (j.status.phase.Expired? ==> w.payload.None? && w.manifest.None?)
  }

  predicate Grows(l: Ledger, m: Ledger) { forall k :: k in l ==> k in m && m[k] == l[k] }

  /** The world only moves on: time, uploads, the runner Job and the ledger never go back. */
  predicate Onward(w: World, u: World) {
    && w.now <= u.now
    && (!w.runnerJob.NoJob? ==> !u.runnerJob.NoJob?)
    && (w.runnerJob.DoneJob? ==> u.runnerJob == w.runnerJob)
    && Stage(w.runner) <= Stage(u.runner)
    && Grows(w.ledger, u.ledger)
    && (w.deleteIssued ==> u.deleteIssued)
    && (Stage(w.runner) == 2 ==> Stage(u.runner) == 2)
    && (Stage(w.runner) == 2 && w.payload.None? ==> u.payload.None?)
    && (Stage(w.runner) == 2 && w.manifest.None? ==> u.manifest.None?)
  }

  lemma SupportedOnward(cfg: Config, w: World, u: World, j: CaptureJob)
    requires Supported(cfg, w, j) && Onward(w, u)
    ensures Supported(cfg, u, j)
  {
  }

  // ------------------------------------------------------------ all stored versions

  predicate Entitled(cfg: Config, w: World, v: nat)
    requires v < |w.history|
  {
    var j := w.history[v];
    j.version == v && Sound(cfg, j) && Supported(cfg, w, j) && Since(j, w.job)
  }

  predicate Linked(h: seq<CaptureJob>, v: nat)
    requires v + 1 < |h|
  {
    Successor(h[v], h[v + 1])
  }

  predicate Chronicle(cfg: Config, w: World) {
    && |w.history| > 0 && w.job == w.history[|w.history| - 1]
    && (forall v :: 0 <= v < |w.history| ==> Entitled(cfg, w, v))
    && (forall v :: 0 <= v < |w.history| - 1 ==> Linked(w.history, v))
  }

  /** The version a pass holds is one that was stored. */
  predicate Held(w: World, seen: CaptureJob) { seen.version < |w.history| && w.history[seen.version] == seen }

  lemma HeldFacts(cfg: Config, w: World, seen: CaptureJob)
    requires Chronicle(cfg, w) && Held(w, seen)
    ensures Sound(cfg, seen) && Supported(cfg, w, seen) && Since(seen, w.job)
    ensures Current(w, seen) ==> seen == w.job
  {
    assert Entitled(cfg, w, seen.version);
  }

  lemma HeldCurrent(cfg: Config, w: World)
    requires Chronicle(cfg, w)
    ensures Held(w, w.job) && Sound(cfg, w.job) && Supported(cfg, w, w.job) && w.job.version == |w.history| - 1
  {
    assert Entitled(cfg, w, |w.history| - 1);
  }

  lemma ChronicleOnward(cfg: Config, w: World, u: World)
    requires Chronicle(cfg, w) && Onward(w, u) && u.job == w.job && u.history == w.history
    ensures Chronicle(cfg, u)
  {
    forall v | 0 <= v < |u.history| ensures Entitled(cfg, u, v) {
      assert Entitled(cfg, w, v);
      SupportedOnward(cfg, w, u, u.history[v]);
    }
    forall v | 0 <= v < |u.history| - 1 ensures Linked(u.history, v) {
      assert Linked(w.history, v);
    }
  }

  lemma ChronicleWrites(cfg: Config, w: World, j: CaptureJob)
    requires Chronicle(cfg, w) && Successor(w.job, j) && Sound(cfg, j) && Supported(cfg, w, j)
    ensures Chronicle(cfg, Write(w, j))
  {
    var u := Write(w, j);
    HeldCurrent(cfg, w);
    forall v | 0 <= v < |u.history| ensures Entitled(cfg, u, v) {
      if v < |w.history| {
        assert Entitled(cfg, w, v);
        SinceSuccessor(w.history[v], w.job, j);
        SupportedOnward(cfg, w, u, u.history[v]);
      } else {
        SupportedOnward(cfg, w, u, j);
      }
    }
    forall v | 0 <= v < |u.history| - 1 ensures Linked(u.history, v) {
      if v + 1 < |w.history| {
        assert Linked(w.history, v);
      }
    }
  }

  // ------------------------------------------------------------ storage and runner

  predicate BlamesNobody(e: Entry) { e.FailedFor? && BeforeRunner(e.reason) }

  predicate Physical(cfg: Config, w: World) {
    && Stage(w.runner) <= 2
    && (w.payload.Some? ==> Stage(w.runner) >= 1)
    && (w.manifest.Some? ==> Stage(w.runner) == 2)
    && (!w.deleteIssued && Stage(w.runner) >= 1 ==> w.payload.Some?)
    && (!w.deleteIssued && Stage(w.runner) == 2 ==> w.manifest.Some?)
    && (!w.runner.NotStarted? ==> !w.runnerJob.NoJob?)
    && (w.runnerJob.DoneJob? ==> !w.runner.Running?)
    && (cfg.reliable && w.runner.Exited? ==> w.runner.stage == 2)
    && (cfg.reliable && w.runnerJob.DoneJob? ==> w.runner.Exited?)
    && (cfg.honest && w.payload.Some? ==> HonestUpload(cfg, w.payload.value))
    && (cfg.honest && w.manifest.Some? ==> w.manifest.value.Readable? && HonestManifest(cfg, w.manifest.value.manifest))
    && (w.deleteIssued ==> w.job.status.phase.Failed? || Sealed(w.job))
    && (Promising(cfg) && TransitionKey(Failed) in w.ledger ==>
          w.deleteIssued || BlamesNobody(w.ledger[TransitionKey(Failed)]))
  }

  // ------------------------------------------------------------ the capture controller's pass

  predicate JobSeen(w: World, o: JobObservation) {
    && (o.state.JobAbsent? ==> w.runnerJob.NoJob?)
    && (o.state.JobActive? ==> !w.runnerJob.NoJob?)
    && (Ended(o) ==> w.runnerJob.DoneJob?)
  }

  predicate Looking(w: World, seen: CaptureJob, obs: Observation) {
    && Held(w, seen) && !IsTerminal(seen.status.phase) && JobSeen(w, obs.job)
    && (obs.job.state.JobAbsent? && !seen.status.runnerJobRef ==> !obs.target.TargetUnknown?)
  }

  /** What was read from storage can be trusted for the decision it leads to. */
  predicate Found(cfg: Config, w: World, obs: Observation) {
    && (obs.artifact.ArtifactVerifiedState? ==>
          && obs.artifact.manifest.Some? && Stage(w.runner) == 2
          && (cfg.honest ==> HonestManifest(cfg, obs.artifact.manifest.value)))
    && (obs.artifact.ArtifactMismatchState? ==> !cfg.honest)
    && (obs.artifact.ArtifactAbsent? || obs.artifact.ArtifactPresent? ==>
          Promising(cfg) && Ended(obs.job) ==> w.deleteIssued)
  }

  predicate Justified(cfg: Config, w: World, seen: CaptureJob, o: Outcome) {
    && Held(w, seen) && !IsTerminal(seen.status.phase)
    && !Dropped(seen.status.phase, o.phase) && !o.phase.Expired? && !o.phase.NoPhase?
    && (o.completion.Some? <==> o.phase.Completed?) && (o.failure.Some? <==> o.phase.Failed?)
    && (o.completion.Some? ==>
          && o.completion.value.deadline == o.completion.value.completedAt + seen.retention
          && Stage(w.runner) == 2
          && (cfg.honest ==> cfg.summary == Some(Summary(o.completion.value.packets, o.completion.value.size,
                                                         o.completion.value.sha))))
    && (o.failure.Some? && Promising(cfg) ==>
          (BeforeRunner(o.failure.value.reason) && w.runnerJob.NoJob?) || w.deleteIssued)
    && (Rank(o.phase) > 1 ==> !w.runnerJob.NoJob?)
    && (o.action.ActionCleanupArtifact? ==> o.phase.Failed?)
  }

  /** If it lands, it is a legitimate next version. */
  predicate Candidate(cfg: Config, w: World, seen: CaptureJob, next: Status) {
    var b := Bump(seen, next);
    Held(w, seen) && (Current(w, seen) ==> Successor(seen, b) && Sound(cfg, b) && Supported(cfg, w, b))
  }

  predicate CaptureInv(cfg: Config, w: World, c: CapturePass) {
    match c
    case CIdle => true
    case CRead(seen) => Held(w, seen)
    case CTarget(seen, obs) =>
      && Held(w, seen) && !IsTerminal(seen.status.phase) && JobSeen(w, obs.job) && obs.artifact.ArtifactUnknown?
      && obs.job.state.JobAbsent? && !seen.status.runnerJobRef
    case CObject(seen, obs) => Looking(w, seen, obs) && ConsultsStorage(seen.status, obs.job.state)
    case CNoObject(seen, obs) =>
      && Looking(w, seen, obs) && ConsultsStorage(seen.status, obs.job.state)
      && (Promising(cfg) && Ended(obs.job) ==> w.deleteIssued)
    case CManifest(seen, obs, info) =>
      && Looking(w, seen, obs) && ConsultsStorage(seen.status, obs.job.state)
      && (cfg.honest ==> cfg.summary.Some? && info == ObjectInfo(|cfg.file|, Some(cfg.summary.value.hashed),
                                                                 Some(cfg.uid)))
    case CEvaluate(seen, obs) =>
      && Looking(w, seen, obs) && Found(cfg, w, obs)
      && (obs.artifact.ArtifactUnknown? <==> !ConsultsStorage(seen.status, obs.job.state))
    case CCreate(seen, _, o) => Justified(cfg, w, seen, o) && w.runnerJob.NoJob? && o.phase.Pending?
    case CPersist(seen, _, o, hasJob) => Justified(cfg, w, seen, o) && (hasJob ==> !w.runnerJob.NoJob?)
    case CApply(seen, _, o, hasJob) =>
      && Justified(cfg, w, seen, o) && (hasJob ==> !w.runnerJob.NoJob?)
      && TransitionKey(o.phase) in w.ledger && w.ledger[TransitionKey(o.phase)] == TransitionEntry(o)
    case CWrite(seen, next, cleanup) =>
      && Candidate(cfg, w, seen, next) && (cleanup ==> next.phase.Failed?)
      && (Promising(cfg) && Current(w, seen) && next.phase.Failed? && !seen.status.phase.Failed? ==> w.runnerJob.NoJob?)
    case CDeleteObject(seen) => Held(w, seen) && seen.status.phase.Failed?
    case CDeleteManifest(seen) => Held(w, seen) && seen.status.phase.Failed? && w.deleteIssued
  }

  // ------------------------------------------------------------ the retention controller's pass

  predicate Doomed(w: World, seen: CaptureJob) { Held(w, seen) && (seen.status.phase.Failed? || Sealed(seen)) }

  predicate Expiring(w: World, seen: CaptureJob) {
    Held(w, seen) && Sealed(seen) && seen.status.phase.Completed? && ExpiryKey(Allow) in w.ledger
  }

  predicate RetainInv(cfg: Config, w: World, r: RetentionPass) {
    match r
    case RIdle => true
    case RRead(seen) => Held(w, seen)
    case RClock(seen) => Held(w, seen) && seen.status.phase.Completed? && HasDeadline(seen)
    case RDeny(seen) =>
      Held(w, seen) && seen.status.phase.Completed? && HasDeadline(seen) && seen.status.retentionDeadline.value <= w.now
    case RIntend(seen) => Held(w, seen) && Sealed(seen) && seen.status.phase.Completed?
    case RDeleteObject(seen) => Doomed(w, seen) && (Finished(seen) ==> Expiring(w, seen))
    case RHeadObject(seen) => Doomed(w, seen) && w.deleteIssued && (Finished(seen) ==> Expiring(w, seen))
    case RDeleteManifest(seen) =>
      Doomed(w, seen) && w.deleteIssued && (Finished(seen) ==> Expiring(w, seen) && w.payload.None?)
    case RHeadManifest(seen) =>
      Doomed(w, seen) && w.deleteIssued && (Finished(seen) ==> Expiring(w, seen) && w.payload.None?)
    case ROutcome(seen) => Expiring(w, seen) && w.payload.None? && w.manifest.None?
    case RExpire(seen) => Expiring(w, seen) && w.payload.None? && w.manifest.None? && ExpiryKey(Succeed) in w.ledger
    case RFault(seen, _) => Held(w, seen)
    case RWrite(seen, next, after) =>
      && Candidate(cfg, w, seen, next) && IsTerminal(seen.status.phase)
      && (after.ThenClock? ==> next.phase.Completed? && HasDeadline(Bump(seen, next)))
      && (after.ThenIntend? ==> next.phase.Completed? && Sealed(Bump(seen, next)))
  }

  predicate EditInv(cfg: Config, w: World, e: EditPass) {
    match e
    case EIdle => true
    case EAdmitted(base, r) => Held(w, base) && !Sealed(base) && ValidRetention(cfg, r) && r != base.retention
  }

  predicate Inv(cfg: Config, s: State) {
    && Chronicle(cfg, s.world) && Physical(cfg, s.world)
    && CaptureInv(cfg, s.world, s.capture) && RetainInv(cfg, s.world, s.retain) && EditInv(cfg, s.world, s.edit)
  }
}
