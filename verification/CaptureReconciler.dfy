/**
 The capture controller's pass in its own form, and that every pass is a stretch of a run of the
 lifecycle.
 */
module CaptureReconciler {
  import opened Options
  import opened CaptureState
  import opened Lifecycle
  import opened LifecyclePaths

  datatype Creation = Created | Rejected | CreateFails | CreateUnconfirmed

  /** One outcome for every call a pass can make, and what it finds where the model does not say. */
  datatype Weather = Weather(
    readJob: bool, exitCode: Option<int>, readTarget: bool, target: TargetState,
    headObject: bool, headManifest: bool, getManifest: bool, create: Creation,
    commit: Effect, write: Effect, deleteObject: Effect, deleteManifest: Effect)

  class CaptureJobReconciler {
    const cfg: Config
    var world: World
    ghost const retain: RetentionPass
    ghost const edit: EditPass
    /** The states of the lifecycle this pass has gone through. */
    ghost var trace: seq<State>

    constructor (cfg: Config, world: World, ghost retain: RetentionPass, ghost edit: EditPass)
      ensures this.cfg == cfg && this.world == world && this.retain == retain && this.edit == edit
      ensures At(CIdle) && trace == [State(world, CIdle, retain, edit)]
    {
      this.cfg, this.world, this.retain, this.edit := cfg, world, retain, edit;
      trace := [State(world, CIdle, retain, edit)];
    }

    /** The trace is a path of the lifecycle, and it ends here. */
    ghost predicate At(c: CapturePass)
      reads this
    {
      IsPath(cfg, trace) && Last(trace) == State(world, c, retain, edit)
    }

    method WriteStatus(job: CaptureJob, next: Status, ghost cleanup: bool, f: Effect) returns (ok: bool)
      requires At(CWrite(job, next, cleanup))
      modifies this
      ensures At(if ok && cleanup then CDeleteObject(Bump(job, next)) else CIdle) && trace[0] == old(trace[0])
      ensures ok <==> f.Works? && job.version == old(world).job.version
      ensures world == Noted(old(world), job, next, f)
    {
      var landed := Lands(f) && job.version == world.job.version;
      ok := landed && f.Works?;
      trace := Extend(cfg, trace, OfCapture(CaptureWrites(landed, ok)));
      if landed { world := Write(world, Bump(job, next)); }
    }

    /** A dependency could not be read, or a Job not created: say so and try again later. */
    method ReportUnavailable(job: CaptureJob, created: bool, w: Weather)
      requires At(CRead(job)) || (exists obs :: At(CTarget(job, obs))) || (exists obs, o :: At(CCreate(job, obs, o)))
      requires created ==> exists obs, o :: At(CCreate(job, obs, o))
      requires !IsTerminal(job.status.phase)
      modifies this
      ensures At(CIdle) && trace[0] == old(trace[0])
      ensures world == Noted(if created then WithJob(old(world)) else old(world), job,
                             job.status.(observedGeneration := job.generation), w.write)
    {
      trace := Extend(cfg, trace, OfCapture(CaptureReportsUnavailable(created)));
      if created { world := WithJob(world); }
      var _ := WriteStatus(job, job.status.(observedGeneration := job.generation), false, w.write);
    }

    /** Object, then manifest. */
    method DeleteArtifact(ghost job: CaptureJob, w: Weather)
      requires At(CDeleteObject(job))
      modifies this
      ensures At(CIdle) && trace[0] == old(trace[0])
      ensures world == old(world).(deleteIssued := true, payload := world.payload, manifest := world.manifest)
      ensures w.deleteObject.Works? && w.deleteManifest.Works? ==> world.payload.None? && world.manifest.None?
    {
      var acked := Reports(w.deleteObject);
      trace := Extend(cfg, trace, OfCapture(CaptureDeletes(Lands(w.deleteObject), acked)));
      world := world.(deleteIssued := true, payload := if Lands(w.deleteObject) then None else world.payload);
      if !acked { return; }
      trace := Extend(cfg, trace, OfCapture(CaptureDeletes(Lands(w.deleteManifest), Reports(w.deleteManifest))));
      world := world.(manifest := if Lands(w.deleteManifest) then None else world.manifest);
    }

    /** Cleanup that is still owed, and a deadline that a retention edit moved. */
    method ReconcileTerminal(job: CaptureJob, w: Weather)
      requires At(CRead(job)) && IsTerminal(job.status.phase)
      modifies this
      ensures At(CIdle) && trace[0] == old(trace[0])
      ensures job.status.phase.Failed? && CleanupPending(job) ==>
        && world == old(world).(deleteIssued := true, payload := world.payload, manifest := world.manifest)
        && (w.deleteObject.Works? && w.deleteManifest.Works? ==> world.payload.None? && world.manifest.None?)
      ensures Outdated(job) ==> world == Noted(old(world), job, ReobserveRetention(job, old(world).now), w.write)
      ensures !(job.status.phase.Failed? && CleanupPending(job)) && !Outdated(job) ==> world == old(world)
    {
      trace := Extend(cfg, trace, OfCapture(CaptureReconcilesTerminal));
      if job.status.phase.Failed? && CleanupPending(job) {
        DeleteArtifact(job, w);
      }
      if job.status.observedGeneration == job.generation || !job.status.phase.Completed? { return; }
      if job.status.completedAt.None? { return; }
      var _ := WriteStatus(job, ReobserveRetention(job, world.now), false, w.write);
    }

    /** Head the object; without one head the manifest, with one get it and verify. */
    method LookupArtifact(job: CaptureJob, obs: Observation, w: Weather) returns (state: ArtifactState)
      requires At(CObject(job, obs))
      modifies this`trace
      ensures At(CEvaluate(job, obs.(artifact := state))) && trace[0] == old(trace[0])
      ensures state == InStorage(cfg, world, w)
      ensures state.ArtifactVerifiedState? <==> w.headObject && w.getManifest && Verifiable(cfg, world)
      ensures state.ArtifactVerifiedState? ==> state.manifest == Some(world.manifest.value.manifest)
      ensures state.ArtifactMismatchState? <==>
              w.headObject && w.getManifest && Paired(world) && !Verifiable(cfg, world)
      ensures state.ArtifactAbsent? <==>
              w.headObject && w.headManifest && world.payload.None? && world.manifest.None?
      ensures state.ArtifactUnavailable? <==>
              !w.headObject || (if world.payload.None? then !w.headManifest else !w.getManifest)
    {
      trace := Extend(cfg, trace, OfCapture(CaptureHeadsObject(w.headObject)));
      if !w.headObject { return ArtifactUnavailable; }
      if world.payload.None? {
        trace := Extend(cfg, trace, OfCapture(CaptureHeadsManifest(w.headManifest)));
        return if !w.headManifest then ArtifactUnavailable
               else if world.manifest.None? then ArtifactAbsent else ArtifactPresent;
      }
      var info := Info(world.payload.value);
      trace := Extend(cfg, trace, OfCapture(CaptureGetsManifest(w.getManifest)));
      if !w.getManifest { return ArtifactUnavailable; }
      match world.manifest
      case None => return ArtifactPresent;
      case Some(Unreadable) => return ArtifactPresent;
      case Some(Readable(m)) =>
        return if VerifyArtifact(m, cfg.uid, info) then ArtifactVerifiedState(Some(m)) else ArtifactMismatchState;
    }

    /** The Job first, then the target or the artifact, as far as they can matter. */
    method Observe(job: CaptureJob, w: Weather) returns (ok: bool, obs: Observation)
      requires At(CRead(job)) && !IsTerminal(job.status.phase) && !w.target.TargetUnknown?
      modifies this
      ensures At(if ok then CEvaluate(job, obs) else CIdle) && trace[0] == old(trace[0])
      ensures ok <==> CanLook(old(world), job, w)
      ensures ok ==> world == old(world) && obs == Seen(cfg, world, job, w) && Gathered(job, obs)
      ensures !ok ==> world == Noted(old(world), job, job.status.(observedGeneration := job.generation), w.write)
    {
      obs := Observation(world.now, TargetUnknown, ObserveJob(world.runnerJob, w.exitCode), ArtifactUnknown);
      if !w.readJob {
        ReportUnavailable(job, false, w);
        return false, obs;
      }
      trace := Extend(cfg, trace, OfCapture(CaptureSeesJob(w.exitCode)));
      if obs.job.state.JobAbsent? && !job.status.runnerJobRef {
        if !w.readTarget {
          ReportUnavailable(job, false, w);
          return false, obs;
        }
        trace := Extend(cfg, trace, OfCapture(CaptureSeesTarget(w.target)));
        obs := obs.(target := w.target);
      }
      ok := true;
      if ConsultsStorage(job.status, obs.job.state) {
        var state := LookupArtifact(job, obs, w);
        obs := obs.(artifact := state);
      }
    }

    /** Creates the runner Job; an outright rejection fails the capture. */
    method CreateRunner(job: CaptureJob, obs: Observation, o: Outcome, w: Weather)
      returns (ok: bool, outcome: Outcome, hasJob: bool)
      requires At(CCreate(job, obs, o)) && !IsTerminal(job.status.phase)
      modifies this
      ensures At(if ok then CPersist(job, obs, outcome, hasJob) else CIdle) && trace[0] == old(trace[0])
      ensures ok <==> w.create.Created? || w.create.Rejected?
      ensures w.create.Created? ==> outcome == o && hasJob && world == WithJob(old(world))
      ensures w.create.Rejected? ==> Rejection(outcome, job) && !hasJob && world == old(world)
      ensures !ok ==> world == Noted(if w.create.CreateUnconfirmed? then WithJob(old(world)) else old(world), job,
                                     job.status.(observedGeneration := job.generation), w.write)
    {
      outcome, hasJob := o, true;
      match w.create
      case CreateFails =>
        ReportUnavailable(job, false, w);
        ok := false;
      case CreateUnconfirmed =>
        ReportUnavailable(job, true, w);
        ok := false;
      case Rejected =>
        trace := Extend(cfg, trace, OfCapture(CaptureCreatesJob(true)));
        ok, outcome, hasJob := true, RejectedRunner(job), false;
      case Created =>
        trace := Extend(cfg, trace, OfCapture(CaptureCreatesJob(false)));
        if world.runnerJob.NoJob? { world := world.(runnerJob := ActiveJob); }
        ok := true;
    }

    /** The record of entering the outcome's phase. */
    method AuditTransition(job: CaptureJob, ghost obs: Observation, o: Outcome, ghost hasJob: bool, f: Effect)
      returns (ok: bool)
      requires At(CPersist(job, obs, o, hasJob)) && o.phase != job.status.phase && !Dropped(job.status.phase, o.phase)
      modifies this
      ensures At(if ok then CApply(job, obs, o, hasJob) else CWrite(job, job.status, false))
      ensures trace[0] == old(trace[0])
      ensures ok <==> f.Works? && CanAck(old(world).ledger, TransitionKey(o.phase), TransitionEntry(o))
      ensures world == old(world).(ledger := Commit(old(world).ledger, TransitionKey(o.phase), TransitionEntry(o),
                                                    ok || Lands(f)))
    {
      var key, entry := TransitionKey(o.phase), TransitionEntry(o);
      ok := f.Works? && (key in world.ledger ==> world.ledger[key] == entry);
      trace := Extend(cfg, trace, OfCapture(CaptureCommits(ok, Lands(f))));
      world := world.(ledger := Commit(world.ledger, key, entry, ok || Lands(f)));
    }

    /** The outcome in status, written unless nothing moved. */
    method ApplyAndWrite(job: CaptureJob, obs: Observation, o: Outcome, hasJob: bool, f: Effect) returns (ok: bool)
      requires At(CApply(job, obs, o, hasJob)) || (At(CPersist(job, obs, o, hasJob)) && o.phase == job.status.phase)
      requires o.action.ActionCleanupArtifact? ==> o.phase != job.status.phase
      modifies this
      ensures At(if ok && o.action.ActionCleanupArtifact?
                 then CDeleteObject(Bump(job, ApplyOutcome(job, obs, o, hasJob, old(world).now))) else CIdle)
      ensures trace[0] == old(trace[0])
      ensures world == Applied(old(world), job, ApplyOutcome(job, obs, o, hasJob, old(world).now), f)
      ensures f.Works? && job == old(world).job ==> ok
    {
      trace := Extend(cfg, trace, OfCapture(CaptureApplies));
      var next := ApplyOutcome(job, obs, o, hasJob, world.now);
      if next == job.status {
        trace := Extend(cfg, trace, OfCapture(CaptureStops));
        return true;
      }
      ok := WriteStatus(job, next, o.action.ActionCleanupArtifact?, f);
    }

    /** The audit record first, then the status; an outcome whose phase is impossible is dropped. */
    method Persist(job: CaptureJob, obs: Observation, o: Outcome, hasJob: bool, w: Weather)
      returns (ok: bool, ghost at: CapturePass)
      requires At(CPersist(job, obs, o, hasJob)) && (o.action.ActionCleanupArtifact? ==> o.phase != job.status.phase)
      modifies this
      ensures At(at) && trace[0] == old(trace[0])
      ensures if ok && o.action.ActionCleanupArtifact? then at.CDeleteObject? else at.CIdle?
      ensures world == Persisted(old(world), job, obs, o, hasJob, w.commit, w.write)
      ensures w.commit.Works? && w.write.Works? && Advances(old(world), job, o) ==> ok
    {
      at := CIdle;
      if o.phase != job.status.phase {
        if Dropped(job.status.phase, o.phase) {
          trace := Extend(cfg, trace, OfCapture(CaptureCommits(false, false)));
          return true, if o.action.ActionCleanupArtifact? then CDeleteObject(job) else CIdle;
        }
        ok := AuditTransition(job, obs, o, hasJob, w.commit);
        if !ok {
          var _ := WriteStatus(job, job.status, false, w.write);
          return;
        }
      }
      ghost var now := world.now;
      ok := ApplyAndWrite(job, obs, o, hasJob, w.write);
      if ok && o.action.ActionCleanupArtifact? {
        at := CDeleteObject(Bump(job, ApplyOutcome(job, obs, o, hasJob, now)));
      }
    }

    /** Carries out what was decided: a Job if one is needed, the status, and any cleanup. */
    method Act(job: CaptureJob, obs: Observation, o: Outcome, w: Weather)
      requires At(if o.action.ActionCreateJob? then CCreate(job, obs, o)
                  else CPersist(job, obs, o, !obs.job.state.JobAbsent?))
      requires !IsTerminal(job.status.phase) && (o.action.ActionCleanupArtifact? ==> o.phase.Failed?)
      modifies this
      ensures At(CIdle) && trace[0] == old(trace[0])
      ensures w.create.Created? || !o.action.ActionCreateJob? ==>
        var carried := Carried(old(world), job, obs, o, w.commit, w.write);
        world == if o.action.ActionCleanupArtifact? then carried.(deleteIssued := world.deleteIssued,
                                                                  payload := world.payload, manifest := world.manifest)
                 else carried
      ensures o.action.ActionCleanupArtifact? && w.commit.Works? && w.write.Works? && Advances(old(world), job, o)
              && w.deleteObject.Works? && w.deleteManifest.Works? ==>
                world.deleteIssued && world.payload.None? && world.manifest.None?
    {
      var ok, outcome, hasJob := true, o, !obs.job.state.JobAbsent?;
      if o.action.ActionCreateJob? {
        ok, outcome, hasJob := CreateRunner(job, obs, o, w);
        if !ok { return; }
      }
      ghost var at;
      ok, at := Persist(job, obs, outcome, hasJob, w);
      if ok && outcome.action.ActionCleanupArtifact? { DeleteArtifact(at.seen, w); }
    }

    /** A capture that has not ended: look, decide, act. */
    method ReconcileLive(job: CaptureJob, w: Weather)
      requires At(CRead(job)) && !IsTerminal(job.status.phase) && !w.target.TargetUnknown?
      modifies this
      ensures At(CIdle) && trace[0] == old(trace[0])
      ensures Clear(w) && job == old(world).job && Completable(cfg, old(world)) ==>
                CompletedFrom(old(world).manifest.value.manifest, world)
      ensures Passed(cfg, old(world), job, w, world)
    {
      var ok, obs := Observe(job, w);
      if !ok { return; }
      trace := Extend(cfg, trace, OfCapture(CaptureEvaluates));
      Decided(job, obs);
      assert obs == Seen(cfg, world, job, w);
      if obs.artifact.ArtifactVerifiedState? { CompletionApplies(job, obs, !obs.job.state.JobAbsent?); }
      Act(job, obs, Evaluate(job, obs).value, w);
    }

    /** One pass over one stored version of the object, possibly an old one. */
    method Reconcile(version: nat, w: Weather)
      requires At(CIdle) && version < |world.history| && !w.target.TargetUnknown?
      modifies this
      ensures At(CIdle) && trace[0] == old(trace[0])
      ensures Clear(w) && old(Finishable(cfg, world, version)) ==>
                CompletedFrom(old(world).manifest.value.manifest, world)
      ensures !IsTerminal(old(world).history[version].status.phase) ==>
                Passed(cfg, old(world), old(world).history[version], w, world)
    {
      var job := world.history[version];
      trace := Extend(cfg, trace, OfCapture(CaptureReads(version)));
      if IsTerminal(job.status.phase) {
        ReconcileTerminal(job, w);
      } else {
        ReconcileLive(job, w);
      }
    }

    /** The same pass where a run has come to: it continues the run, so whatever holds in every run holds
        after it. */
    method ReconcileIn(ghost run: seq<State>, version: nat, w: Weather) returns (ghost longer: seq<State>)
      requires IsRun(cfg, run) && Last(run) == State(world, CIdle, retain, edit)
      requires version < |world.history| && !w.target.TargetUnknown?
      modifies this
      ensures IsRun(cfg, longer) && run <= longer && Last(longer) == State(world, CIdle, retain, edit)
      ensures Clear(w) && old(Finishable(cfg, world, version)) ==>
                CompletedFrom(old(world).manifest.value.manifest, world)
    {
      trace := [State(world, CIdle, retain, edit)];
      Reconcile(version, w);
      RunContinues(cfg, run, trace);
      longer := run + trace[1..];
    }
  }

  /** What was gathered always has an outcome, and cleanup goes with failure. */
  lemma Decided(job: CaptureJob, obs: Observation)
    requires Gathered(job, obs)
    ensures Evaluate(job, obs).Ok?
    ensures Evaluate(job, obs).value.action.ActionCleanupArtifact? ==> Evaluate(job, obs).value.phase.Failed?
  {
    EvaluateDecides(job, obs);
  }

  function WithJob(w: World): World { w.(runnerJob := if w.runnerJob.NoJob? then ActiveJob else w.runnerJob) }

  /** What storage shows: which of the two objects is there, whether they agree, and whether it answers. */
  function InStorage(cfg: Config, w: World, x: Weather): ArtifactState {
    if !x.headObject || (if w.payload.None? then !x.headManifest else !x.getManifest) then ArtifactUnavailable
    else if Verifiable(cfg, w) then ArtifactVerifiedState(Some(w.manifest.value.manifest))
    else if Paired(w) then ArtifactMismatchState
    else if w.payload.None? && w.manifest.None? then ArtifactAbsent
    else ArtifactPresent
  }

  /** The target matters only while there is no runner and none was ever seen. */
  predicate NeedsTarget(w: World, job: CaptureJob) { w.runnerJob.NoJob? && !job.status.runnerJobRef }

  predicate CanLook(w: World, job: CaptureJob, x: Weather) { x.readJob && (NeedsTarget(w, job) ==> x.readTarget) }

  /** What a pass sees: the Job, the target if it matters, and storage once the capture has ended, by its Job, its
      reporter or its status. */
  function Seen(cfg: Config, w: World, job: CaptureJob, x: Weather): Observation {
    var ended := w.runnerJob.DoneJob? || job.status.captureEndedAt.Some? || job.status.phase.Storing?;
    Observation(w.now, if NeedsTarget(w, job) then x.target else TargetUnknown, ObserveJob(w.runnerJob, x.exitCode),
                if ended then InStorage(cfg, w, x) else ArtifactUnknown)
  }

  /** What a pass over an unfinished version did: nothing but report if it could not look; otherwise it carried
      out the outcome of what it saw, and removed nothing unless that outcome says so. */
  predicate Passed(cfg: Config, w: World, job: CaptureJob, x: Weather, u: World)
    requires !IsTerminal(job.status.phase)
  {
    if !CanLook(w, job, x) then u == Noted(w, job, job.status.(observedGeneration := job.generation), x.write)
    else
      var obs := Seen(cfg, w, job, x);
      && Evaluate(job, obs).Ok?
      && var o := Evaluate(job, obs).value;
         (x.create.Created? || !o.action.ActionCreateJob?) && !o.action.ActionCleanupArtifact? ==>
           u == Carried(w, job, obs, o, x.commit, x.write)
  }

  /** The outcome of a Job that was rejected outright. */
  predicate Rejection(o: Outcome, job: CaptureJob) {
    && o.phase.Failed? && o.failure.Some? && o.completion.None? && o.action.ActionNone? && !o.storageUnavailable
    && o.failure.value.reason.RunnerCreateFailed? && o.failure.value.message.JobRejected?
    && o.failure.value.failedPhase == (if job.status.phase.NoPhase? then Pending else job.status.phase)
  }

  /** The world after writing the status unless it is the one that was read. */
  function Applied(w: World, job: CaptureJob, next: Status, f: Effect): World {
    if next == job.status then w else Noted(w, job, next, f)
  }

  /** The world after an outcome is recorded and written: record first, and the status only if it was
      acknowledged. */
  function Persisted(w: World, job: CaptureJob, obs: Observation, o: Outcome, hasJob: bool,
                     commit: Effect, write: Effect): World
  {
    var key, entry := TransitionKey(o.phase), TransitionEntry(o);
    var acked := commit.Works? && CanAck(w.ledger, key, entry);
    var recorded := w.(ledger := Commit(w.ledger, key, entry, acked || Lands(commit)));
    if o.phase == job.status.phase then Applied(w, job, ApplyOutcome(job, obs, o, hasJob, w.now), write)
    else if Dropped(job.status.phase, o.phase) then w
    else if !acked then Noted(recorded, job, job.status, write)
    else Applied(recorded, job, ApplyOutcome(job, obs, o, hasJob, w.now), write)
  }

  /** And after the Job it may need was created first. */
  function Carried(w: World, job: CaptureJob, obs: Observation, o: Outcome, commit: Effect, write: Effect): World {
    if o.action.ActionCreateJob? then Persisted(WithJob(w), job, obs, o, true, commit, write)
    else Persisted(w, job, obs, o, !obs.job.state.JobAbsent?, commit, write)
  }

  /** The outcome moves the stored version on, and the ledger can say so. */
  predicate Advances(w: World, job: CaptureJob, o: Outcome) {
    && job == w.job && o.phase != job.status.phase && CanTransition(job.status.phase, o.phase)
    && CanAck(w.ledger, TransitionKey(o.phase), TransitionEntry(o))
  }

  /** Every call works. */
  predicate Clear(w: Weather) {
    w.readJob && w.readTarget && w.headObject && w.headManifest && w.getManifest && w.commit.Works? && w.write.Works?
  }

  /** The Job has ended, what it stored verifies, and the ledger can say so. */
  predicate Completable(cfg: Config, w: World) {
    && w.runnerJob.DoneJob? && Verifiable(cfg, w) && w.job.retention > 0
    && CanAck(w.ledger, TransitionKey(Completed), Entered(Completed))
  }

  predicate Finishable(cfg: Config, w: World, version: nat)
    requires version < |w.history|
  {
    w.job == w.history[version] && !IsTerminal(w.job.status.phase) && Completable(cfg, w)
  }

  predicate CompletedFrom(m: Manifest, w: World) { Reporting(m, w.job, w.now) }

  /** Completed, reporting what the manifest says, with the deadline its retention implies, and downloadable. */
  predicate Reporting(m: Manifest, j: CaptureJob, now: nat) {
    var s := j.status;
    && s.phase.Completed? && s.packetCount == Some(m.packets) && s.sizeBytes == Some(m.size) && s.sha256 == Some(m.sha)
    && s.startedAt == Some(m.startedAt) && s.captureEndedAt == Some(m.endedAt) && s.artifact
    && s.artifactVerified == Some(Condition(True, Verified, j.generation)) && s.observedGeneration == j.generation
    && s.completedAt == Some(now) && s.retentionDeadline == Some(now + j.retention) && s.failure.None?
    && DecideDownload(j, now) == Allowed && s.downloadable == Some(Condition(True, Downloadable, j.generation))
  }

  lemma CompletionApplies(job: CaptureJob, obs: Observation, hasJob: bool)
    requires Gathered(job, obs) && obs.artifact.ArtifactVerifiedState?
    ensures Evaluate(job, obs).value.phase.Completed? && Evaluate(job, obs).value.action.ActionNone?
    ensures TransitionEntry(Evaluate(job, obs).value) == Entered(Completed)
    ensures job.retention > 0 ==>
      Reporting(obs.artifact.manifest.value,
                Bump(job, ApplyOutcome(job, obs, Evaluate(job, obs).value, hasJob, obs.now)), obs.now)
  {
  }

  /** Both objects are there and the manifest can be read. */
  predicate Paired(w: World) { w.payload.Some? && w.manifest.Some? && w.manifest.value.Readable? }

  /** Both are the capture's, and the object has the length and carries the checksum the manifest gives. */
  predicate Verifiable(cfg: Config, w: World) {
    && Paired(w)
    && var o, m := w.payload.value, w.manifest.value.manifest;
       && m.uid == cfg.uid && (o.uid.Some? ==> o.uid.value == cfg.uid)
       && |o.bytes| == m.size && o.sha == Some(m.sha)
  }
}
