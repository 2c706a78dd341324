/** Every step keeps the lifecycle invariant. */
module LifecycleSteps {
  import opened Options
  import opened Pcapng
  import opened CaptureState
  import opened Lifecycle
  import opened LifecycleInvariant

  // ------------------------------------------------------------ what one actor may rely on while another acts

  predicate Elsewhere(w: World, u: World) {
    && Onward(w, u)
    && |w.history| <= |u.history| && u.history[..|w.history|] == w.history
    && w.job.version <= u.job.version && (w.job.version == u.job.version ==> w.job == u.job)
  }

  lemma HeldOnward(w: World, u: World, seen: CaptureJob)
    requires Elsewhere(w, u) && Held(w, seen)
    ensures Held(u, seen)
  {
    assert u.history[..|w.history|][seen.version] == u.history[seen.version];
  }

  lemma CandidateOnward(cfg: Config, w: World, u: World, seen: CaptureJob, next: Status)
    requires Chronicle(cfg, w) && Elsewhere(w, u) && Candidate(cfg, w, seen, next)
    ensures Candidate(cfg, u, seen, next) && (Current(u, seen) ==> Current(w, seen))
  {
    HeldOnward(w, u, seen);
    HeldCurrent(cfg, w);
    if Current(u, seen) {
      SupportedOnward(cfg, w, u, Bump(seen, next));
    }
  }

  lemma CaptureOnward(cfg: Config, w: World, u: World, c: CapturePass)
    requires Chronicle(cfg, w) && Elsewhere(w, u) && (u.runnerJob.NoJob? <==> w.runnerJob.NoJob?)
    requires CaptureInv(cfg, w, c)
    ensures CaptureInv(cfg, u, c)
  {
    if c.CWrite? {
      CandidateOnward(cfg, w, u, c.seen, c.next);
    } else if !c.CIdle? {
      HeldOnward(w, u, c.seen);
    }
  }

  lemma RetainOnward(cfg: Config, w: World, u: World, r: RetentionPass)
    requires Chronicle(cfg, w) && Elsewhere(w, u) && RetainInv(cfg, w, r)
    ensures RetainInv(cfg, u, r)
  {
    if r.RWrite? {
      CandidateOnward(cfg, w, u, r.seen, r.next);
    } else if !r.RIdle? {
      HeldOnward(w, u, r.seen);
      HeldFacts(cfg, w, r.seen);
    }
  }

  lemma EditOnward(cfg: Config, w: World, u: World, e: EditPass)
    requires Elsewhere(w, u) && EditInv(cfg, w, e)
    ensures EditInv(cfg, u, e)
  {
    if e.EAdmitted? {
      HeldOnward(w, u, e.base);
    }
  }

  /** A write that lands. */
  lemma WriteLands(cfg: Config, w: World, seen: CaptureJob, next: Status)
    requires Chronicle(cfg, w) && Physical(cfg, w) && Candidate(cfg, w, seen, next) && Current(w, seen)
    ensures Chronicle(cfg, Write(w, Bump(seen, next))) && Physical(cfg, Write(w, Bump(seen, next)))
    ensures Elsewhere(w, Write(w, Bump(seen, next))) && Held(Write(w, Bump(seen, next)), Bump(seen, next))
  {
    HeldFacts(cfg, w, seen);
    HeldCurrent(cfg, w);
    ChronicleWrites(cfg, w, Bump(seen, next));
    HeldCurrent(cfg, Write(w, Bump(seen, next)));
  }

  /** A step of the capture controller that changes the world around the stored object. */
  lemma CaptureActs(cfg: Config, s: State, u: World, c: CapturePass)
    requires Inv(cfg, s) && Onward(s.world, u) && u.job == s.world.job && u.history == s.world.history
    requires Physical(cfg, u) && CaptureInv(cfg, u, c)
    ensures Inv(cfg, s.(world := u, capture := c))
  {
    ChronicleOnward(cfg, s.world, u);
    RetainOnward(cfg, s.world, u, s.retain);
    EditOnward(cfg, s.world, u, s.edit);
  }

  // ------------------------------------------------------------ capture: looking

  lemma CaptureReadsKeeps(cfg: Config, s: State, e: CaptureEvent)
    requires Inv(cfg, s) && CaptureEnabled(s, e) && e.CaptureReads?
    ensures Inv(cfg, CaptureStep(cfg, s, e))
  {
    assert Entitled(cfg, s.world, e.version);
  }

  lemma ReobserveIsCandidate(cfg: Config, w: World, seen: CaptureJob)
    requires Chronicle(cfg, w) && Held(w, seen) && seen.status.phase.Completed? && seen.status.completedAt.Some?
    ensures Candidate(cfg, w, seen, ReobserveRetention(seen, w.now))
  {
    HeldFacts(cfg, w, seen);
  }

  lemma CaptureReconcilesTerminalKeeps(cfg: Config, s: State, e: CaptureEvent)
    requires Inv(cfg, s) && CaptureEnabled(s, e) && e.CaptureReconcilesTerminal?
    ensures Inv(cfg, CaptureStep(cfg, s, e))
  {
    var seen := s.capture.seen;
    if seen.status.phase.Completed? && seen.status.completedAt.Some? {
      ReobserveIsCandidate(cfg, s.world, seen);
    }
  }

  lemma CaptureLooksKeeps(cfg: Config, s: State, e: CaptureEvent)
    requires Inv(cfg, s) && CaptureEnabled(s, e)
    requires e.CaptureSeesJob? || e.CaptureSeesTarget? || e.CaptureHeadsObject? || e.CaptureHeadsManifest?
    ensures Inv(cfg, CaptureStep(cfg, s, e))
  {
  }

  lemma CaptureGetsManifestKeeps(cfg: Config, s: State, e: CaptureEvent)
    requires cfg.summary.Some? ==> cfg.summary.value.size == |cfg.file|
    requires Inv(cfg, s) && CaptureEnabled(s, e) && e.CaptureGetsManifest?
    ensures Inv(cfg, CaptureStep(cfg, s, e))
  {
  }

  /** The decision rests on facts that still hold, whatever happened since they were read. */
  lemma EvaluateIsJustified(cfg: Config, w: World, seen: CaptureJob, obs: Observation)
    requires Chronicle(cfg, w) && Looking(w, seen, obs) && Found(cfg, w, obs)
    requires obs.artifact.ArtifactUnknown? <==> !ConsultsStorage(seen.status, obs.job.state)
    ensures Evaluate(seen, obs).Ok? && Justified(cfg, w, seen, Evaluate(seen, obs).value)
    ensures Evaluate(seen, obs).value.action.ActionCreateJob? ==>
              w.runnerJob.NoJob? && Evaluate(seen, obs).value.phase.Pending?
  {
    HeldFacts(cfg, w, seen);
    GuardFiresExactlyWhen(seen, obs);
    EvaluateDecides(seen, obs);
  }

  lemma CaptureEvaluatesKeeps(cfg: Config, s: State, e: CaptureEvent)
    requires Inv(cfg, s) && CaptureEnabled(s, e) && e.CaptureEvaluates?
    ensures Inv(cfg, CaptureStep(cfg, s, e))
  {
    EvaluateIsJustified(cfg, s.world, s.capture.seen, s.capture.obs);
  }

  // ------------------------------------------------------------ capture: acting

  lemma ApplyIsCandidate(cfg: Config, w: World, seen: CaptureJob, obs: Observation, o: Outcome, hasJob: bool)
    requires Chronicle(cfg, w) && Physical(cfg, w) && Justified(cfg, w, seen, o) && (hasJob ==> !w.runnerJob.NoJob?)
    requires o.phase != seen.status.phase ==>
               TransitionKey(o.phase) in w.ledger && w.ledger[TransitionKey(o.phase)] == TransitionEntry(o)
    ensures Candidate(cfg, w, seen, ApplyOutcome(seen, obs, o, hasJob, w.now))
    ensures ApplyOutcome(seen, obs, o, hasJob, w.now).phase == o.phase
    ensures Promising(cfg) && Current(w, seen) && o.phase.Failed? ==> w.runnerJob.NoJob?
  {
    HeldFacts(cfg, w, seen);
  }

  lemma CaptureAppliesKeeps(cfg: Config, s: State, e: CaptureEvent)
    requires Inv(cfg, s) && CaptureEnabled(s, e) && e.CaptureApplies?
    ensures Inv(cfg, CaptureStep(cfg, s, e))
  {
    var c := s.capture;
    ApplyIsCandidate(cfg, s.world, c.seen, c.obs, c.outcome, c.hasJob);
  }

  /** A pass that could not finish says so in status, without touching the phase. */
  lemma ReportIsCandidate(cfg: Config, w: World, seen: CaptureJob)
    requires Chronicle(cfg, w) && Held(w, seen)
    ensures Candidate(cfg, w, seen, seen.status)
    ensures !IsTerminal(seen.status.phase) ==>
              Candidate(cfg, w, seen, seen.status.(observedGeneration := seen.generation))
  {
    HeldFacts(cfg, w, seen);
  }

  lemma CaptureReportsKeeps(cfg: Config, s: State, e: CaptureEvent)
    requires Inv(cfg, s) && CaptureEnabled(s, e) && e.CaptureReportsUnavailable?
    ensures Inv(cfg, CaptureStep(cfg, s, e))
  {
    var t := CaptureStep(cfg, s, e);
    var seen := s.capture.seen;
    ReportIsCandidate(cfg, s.world, seen);
    CandidateOnward(cfg, s.world, t.world, seen, seen.status.(observedGeneration := seen.generation));
    CaptureActs(cfg, s, t.world, t.capture);
  }

  lemma CaptureCreatesKeeps(cfg: Config, s: State, e: CaptureEvent)
    requires Inv(cfg, s) && CaptureEnabled(s, e) && e.CaptureCreatesJob?
    ensures Inv(cfg, CaptureStep(cfg, s, e))
  {
    var t := CaptureStep(cfg, s, e);
    CaptureActs(cfg, s, t.world, t.capture);
  }

  lemma CaptureCommitsKeeps(cfg: Config, s: State, e: CaptureEvent)
    requires Inv(cfg, s) && CaptureEnabled(s, e) && e.CaptureCommits?
    ensures Inv(cfg, CaptureStep(cfg, s, e))
  {
    var t := CaptureStep(cfg, s, e);
    var seen := s.capture.seen;
    ReportIsCandidate(cfg, s.world, seen);
    CandidateOnward(cfg, s.world, t.world, seen, seen.status);
    CaptureActs(cfg, s, t.world, t.capture);
  }

  lemma CaptureWritesKeeps(cfg: Config, s: State, e: CaptureEvent)
    requires Inv(cfg, s) && CaptureEnabled(s, e) && e.CaptureWrites?
    ensures Inv(cfg, CaptureStep(cfg, s, e))
  {
    var c := s.capture;
    if e.landed {
      var u := Write(s.world, Bump(c.seen, c.next));
      WriteLands(cfg, s.world, c.seen, c.next);
      RetainOnward(cfg, s.world, u, s.retain);
      EditOnward(cfg, s.world, u, s.edit);
    }
  }

  lemma ObjectDeleted(cfg: Config, w: World, landed: bool)
    requires Physical(cfg, w) && (w.job.status.phase.Failed? || Sealed(w.job))
    ensures Physical(cfg, w.(deleteIssued := true, payload := if landed then None else w.payload))
    ensures Onward(w, w.(deleteIssued := true, payload := if landed then None else w.payload))
  {
  }

  lemma ManifestDeleted(cfg: Config, w: World, landed: bool)
    requires Physical(cfg, w) && w.deleteIssued
    ensures Physical(cfg, w.(manifest := if landed then None else w.manifest))
    ensures Onward(w, w.(manifest := if landed then None else w.manifest))
  {
  }

  lemma CaptureDeletesKeeps(cfg: Config, s: State, e: CaptureEvent)
    requires Inv(cfg, s) && CaptureEnabled(s, e) && e.CaptureDeletes?
    ensures Inv(cfg, CaptureStep(cfg, s, e))
  {
    var t := CaptureStep(cfg, s, e);
    if s.capture.CDeleteObject? {
      HeldFacts(cfg, s.world, s.capture.seen);
      ObjectDeleted(cfg, s.world, e.landed);
    } else {
      ManifestDeleted(cfg, s.world, e.landed);
    }
    CaptureActs(cfg, s, t.world, t.capture);
  }

  predicate Opens(e: CaptureEvent) {
    e.CaptureReads? || e.CaptureReconcilesTerminal? || e.CaptureEvaluates? || e.CaptureGetsManifest?
  }

  predicate Prepares(e: CaptureEvent) { e.CaptureReportsUnavailable? || e.CaptureCreatesJob? || e.CaptureCommits? }

  predicate Closes(e: CaptureEvent) { e.CaptureApplies? || e.CaptureWrites? || e.CaptureDeletes? }

  lemma CaptureOpensKeeps(cfg: Config, s: State, e: CaptureEvent)
    requires cfg.summary.Some? ==> cfg.summary.value.size == |cfg.file|
    requires Inv(cfg, s) && CaptureEnabled(s, e) && Opens(e)
    ensures Inv(cfg, CaptureStep(cfg, s, e))
  {
    match e
    case CaptureReads(_) => CaptureReadsKeeps(cfg, s, e);
    case CaptureReconcilesTerminal => CaptureReconcilesTerminalKeeps(cfg, s, e);
    case CaptureGetsManifest(_) => CaptureGetsManifestKeeps(cfg, s, e);
    case CaptureEvaluates => CaptureEvaluatesKeeps(cfg, s, e);
  }

  lemma CapturePreparesKeeps(cfg: Config, s: State, e: CaptureEvent)
    requires Inv(cfg, s) && CaptureEnabled(s, e) && Prepares(e)
    ensures Inv(cfg, CaptureStep(cfg, s, e))
  {
    match e
    case CaptureReportsUnavailable(_) => CaptureReportsKeeps(cfg, s, e);
    case CaptureCreatesJob(_) => CaptureCreatesKeeps(cfg, s, e);
    case CaptureCommits(_, _) => CaptureCommitsKeeps(cfg, s, e);
  }

  lemma CaptureClosesKeeps(cfg: Config, s: State, e: CaptureEvent)
    requires Inv(cfg, s) && CaptureEnabled(s, e) && Closes(e)
    ensures Inv(cfg, CaptureStep(cfg, s, e))
  {
    match e
    case CaptureApplies => CaptureAppliesKeeps(cfg, s, e);
    case CaptureWrites(_, _) => CaptureWritesKeeps(cfg, s, e);
    case CaptureDeletes(_, _) => CaptureDeletesKeeps(cfg, s, e);
  }

  lemma CaptureKeeps(cfg: Config, s: State, e: CaptureEvent)
    requires cfg.summary.Some? ==> cfg.summary.value.size == |cfg.file|
    requires Inv(cfg, s) && CaptureEnabled(s, e)
    ensures Inv(cfg, CaptureStep(cfg, s, e))
  {
    if Opens(e) {
      CaptureOpensKeeps(cfg, s, e);
    } else if Prepares(e) {
      CapturePreparesKeeps(cfg, s, e);
    } else if Closes(e) {
      CaptureClosesKeeps(cfg, s, e);
    } else if !e.CaptureStops? {
      CaptureLooksKeeps(cfg, s, e);
    }
  }

  // ------------------------------------------------------------ retention

  lemma RetentionActs(cfg: Config, s: State, u: World, r: RetentionPass)
    requires Inv(cfg, s) && Onward(s.world, u) && u.job == s.world.job && u.history == s.world.history
    requires u.runnerJob == s.world.runnerJob
    requires Physical(cfg, u) && RetainInv(cfg, u, r)
    ensures Inv(cfg, s.(world := u, retain := r))
  {
    ChronicleOnward(cfg, s.world, u);
    CaptureOnward(cfg, s.world, u, s.capture);
    EditOnward(cfg, s.world, u, s.edit);
  }

  lemma RetentionReadsKeeps(cfg: Config, s: State, e: RetentionEvent)
    requires Inv(cfg, s) && RetentionEnabled(s, e) && e.RetentionReads?
    ensures Inv(cfg, RetentionStep(s, e))
  {
    assert Entitled(cfg, s.world, e.version);
  }

  /** Moving the deadline to where the current spec puts it. */
  lemma DeadlineIsCandidate(cfg: Config, w: World, seen: CaptureJob)
    requires Chronicle(cfg, w) && Held(w, seen) && seen.status.phase.Completed? && seen.status.completedAt.Some?
    requires !HasDeadline(seen)
    ensures Candidate(cfg, w, seen,
                      seen.status.(retentionDeadline := Some(seen.status.completedAt.value + seen.retention)))
  {
    HeldFacts(cfg, w, seen);
  }

  lemma RetentionObservesDeadlineKeeps(cfg: Config, s: State, e: RetentionEvent)
    requires Inv(cfg, s) && RetentionEnabled(s, e) && e.RetentionObservesDeadline?
    ensures Inv(cfg, RetentionStep(s, e))
  {
    var seen := s.retain.seen;
    if seen.status.phase.Completed? && seen.status.completedAt.Some? && !HasDeadline(seen) {
      DeadlineIsCandidate(cfg, s.world, seen);
    }
  }

  /** Refusing the download seals the capture. */
  lemma DenialIsCandidate(cfg: Config, w: World, seen: CaptureJob)
    requires Chronicle(cfg, w) && Held(w, seen) && seen.status.phase.Completed? && HasDeadline(seen)
    requires seen.status.retentionDeadline.value <= w.now
    ensures Candidate(cfg, w, seen, seen.status.(downloadable := Some(Refusal(seen.generation))))
  {
    HeldFacts(cfg, w, seen);
  }

  lemma RetentionDeniesKeeps(cfg: Config, s: State, e: RetentionEvent)
    requires Inv(cfg, s) && RetentionEnabled(s, e) && e.RetentionDenies?
    ensures Inv(cfg, RetentionStep(s, e))
  {
    DenialIsCandidate(cfg, s.world, s.retain.seen);
  }

  lemma RetentionCommitsKeeps(cfg: Config, s: State, e: RetentionEvent)
    requires Inv(cfg, s) && RetentionEnabled(s, e) && e.RetentionCommits?
    ensures Inv(cfg, RetentionStep(s, e))
  {
    var t := RetentionStep(s, e);
    RetentionActs(cfg, s, t.world, t.retain);
  }

  lemma DeleteFailedKeeps(cfg: Config, w: World, u: World, seen: CaptureJob, note: nat)
    requires Chronicle(cfg, w) && Elsewhere(w, u) && Held(w, seen) && IsTerminal(seen.status.phase)
    ensures RetainInv(cfg, u, DeleteFailed(seen, note))
  {
    ReportIsCandidate(cfg, w, seen);
    CandidateOnward(cfg, w, u, seen, seen.status);
  }

  lemma RetentionDeletesObjectFails(cfg: Config, s: State, e: RetentionEvent)
    requires Inv(cfg, s) && e.RetentionDeletes? && s.retain.RDeleteObject? && !e.acked
    requires Physical(cfg, RetentionStep(s, e).world) && Onward(s.world, RetentionStep(s, e).world)
    ensures Inv(cfg, RetentionStep(s, e))
  {
    var t := RetentionStep(s, e);
    DeleteFailedKeeps(cfg, s.world, t.world, s.retain.seen, e.note);
    RetentionActs(cfg, s, t.world, DeleteFailed(s.retain.seen, e.note));
  }

  lemma RetentionDeletesObjectKeeps(cfg: Config, s: State, e: RetentionEvent)
    requires Inv(cfg, s) && e.RetentionDeletes? && s.retain.RDeleteObject?
    ensures Inv(cfg, RetentionStep(s, e))
  {
    HeldFacts(cfg, s.world, s.retain.seen);
    ObjectDeleted(cfg, s.world, e.landed);
    if e.acked {
      RetentionActs(cfg, s, RetentionStep(s, e).world, RHeadObject(s.retain.seen));
    } else {
      RetentionDeletesObjectFails(cfg, s, e);
    }
  }

  lemma RetentionDeletesManifestKeeps(cfg: Config, s: State, e: RetentionEvent)
    requires Inv(cfg, s) && e.RetentionDeletes? && s.retain.RDeleteManifest?
    ensures Inv(cfg, RetentionStep(s, e))
  {
    var t := RetentionStep(s, e);
    var seen := s.retain.seen;
    ManifestDeleted(cfg, s.world, e.landed);
    if e.acked {
      RetentionActs(cfg, s, t.world, RHeadManifest(seen));
    } else {
      DeleteFailedKeeps(cfg, s.world, t.world, seen, e.note);
      RetentionActs(cfg, s, t.world, DeleteFailed(seen, e.note));
    }
  }

  lemma RetentionHeadsKeeps(cfg: Config, s: State, e: RetentionEvent)
    requires Inv(cfg, s) && RetentionEnabled(s, e) && e.RetentionHeads?
    ensures Inv(cfg, RetentionStep(s, e))
  {
    DeleteFailedKeeps(cfg, s.world, s.world, s.retain.seen, e.note);
  }

  /** Expired is written only after both records are durable and both keys were seen absent. */
  lemma ExpiryIsCandidate(cfg: Config, w: World, seen: CaptureJob)
    requires Chronicle(cfg, w) && Expiring(w, seen) && w.payload.None? && w.manifest.None?
    requires ExpiryKey(Succeed) in w.ledger
    ensures Candidate(cfg, w, seen, seen.status.(phase := Expired, downloadable := Some(Refusal(seen.generation))))
  {
    HeldFacts(cfg, w, seen);
  }

  lemma RetentionExpiresKeeps(cfg: Config, s: State, e: RetentionEvent)
    requires Inv(cfg, s) && RetentionEnabled(s, e) && e.RetentionExpires?
    ensures Inv(cfg, RetentionStep(s, e))
  {
    ExpiryIsCandidate(cfg, s.world, s.retain.seen);
  }

  lemma RetentionWritesKeeps(cfg: Config, s: State, e: RetentionEvent)
    requires Inv(cfg, s) && RetentionEnabled(s, e) && e.RetentionWrites?
    ensures Inv(cfg, RetentionStep(s, e))
  {
    var r := s.retain;
    if e.landed {
      var u := Write(s.world, Bump(r.seen, r.next));
      WriteLands(cfg, s.world, r.seen, r.next);
      CaptureOnward(cfg, s.world, u, s.capture);
      EditOnward(cfg, s.world, u, s.edit);
    }
  }

  lemma RetentionKeeps(cfg: Config, s: State, e: RetentionEvent)
    requires Inv(cfg, s) && RetentionEnabled(s, e)
    ensures Inv(cfg, RetentionStep(s, e))
  {
    match e
    case RetentionReads(_) => RetentionReadsKeeps(cfg, s, e);
    case RetentionStops =>
    case RetentionObservesDeadline => RetentionObservesDeadlineKeeps(cfg, s, e);
    case RetentionReadsClock =>
    case RetentionDenies => RetentionDeniesKeeps(cfg, s, e);
    case RetentionCommits(_, _) => RetentionCommitsKeeps(cfg, s, e);
    case RetentionDeletes(_, _, _) =>
      if s.retain.RDeleteObject? {
        RetentionDeletesObjectKeeps(cfg, s, e);
      } else {
        RetentionDeletesManifestKeeps(cfg, s, e);
      }
    case RetentionHeads(_, _) => RetentionHeadsKeeps(cfg, s, e);
    case RetentionExpires => RetentionExpiresKeeps(cfg, s, e);
    case RetentionWrites(_, _) => RetentionWritesKeeps(cfg, s, e);
  }

  // ------------------------------------------------------------ everyone else

  lemma WorldMoves(cfg: Config, s: State, u: World)
    requires Inv(cfg, s) && Onward(s.world, u) && u.job == s.world.job && u.history == s.world.history
    requires (u.runnerJob.NoJob? <==> s.world.runnerJob.NoJob?) && Physical(cfg, u)
    ensures Inv(cfg, s.(world := u))
  {
    ChronicleOnward(cfg, s.world, u);
    CaptureOnward(cfg, s.world, u, s.capture);
    RetainOnward(cfg, s.world, u, s.retain);
    EditOnward(cfg, s.world, u, s.edit);
  }

  lemma WorldWrites(cfg: Config, s: State, j: CaptureJob)
    requires Inv(cfg, s) && Successor(s.world.job, j) && Sound(cfg, j) && Supported(cfg, s.world, j)
    ensures Inv(cfg, s.(world := Write(s.world, j)))
  {
    var u := Write(s.world, j);
    ChronicleWrites(cfg, s.world, j);
    CaptureOnward(cfg, s.world, u, s.capture);
    RetainOnward(cfg, s.world, u, s.retain);
    EditOnward(cfg, s.world, u, s.edit);
  }

  lemma ObjectEventsKeep(cfg: Config, s: State, e: WorldEvent)
    requires Inv(cfg, s) && WorldEnabled(cfg, s, e) && (e.Touch? || e.ReporterApplies?)
    ensures Inv(cfg, WorldStep(s, e))
  {
    HeldCurrent(cfg, s.world);
    WorldWrites(cfg, s, WorldStep(s, e).world.job);
  }

  /** The gate admits no edit of a sealed capture: its deadline has passed. */
  lemma EditAdmittedKeeps(cfg: Config, s: State, e: WorldEvent)
    requires Inv(cfg, s) && WorldEnabled(cfg, s, e) && e.EditAdmitted?
    ensures Inv(cfg, WorldStep(s, e))
  {
    HeldCurrent(cfg, s.world);
  }

  lemma EditCommitsKeeps(cfg: Config, s: State, e: WorldEvent)
    requires Inv(cfg, s) && WorldEnabled(cfg, s, e) && e.EditCommits?
    ensures Inv(cfg, WorldStep(s, e))
  {
    HeldFacts(cfg, s.world, s.edit.base);
    WorldWrites(cfg, s.(edit := EIdle), Edited(s.edit.base, s.edit.retention));
  }

  lemma RunnerEventsKeep(cfg: Config, s: State, e: WorldEvent)
    requires Inv(cfg, s) && WorldEnabled(cfg, s, e)
    requires
      || e.Tick? || e.RunnerStarts? || e.RunnerPutsObject? || e.RunnerPutsManifest?
      || e.RunnerExits? || e.JobFinishes?
    ensures Inv(cfg, WorldStep(s, e))
  {
    WorldMoves(cfg, s, WorldStep(s, e).world);
  }

  lemma WorldKeeps(cfg: Config, s: State, e: WorldEvent)
    requires Inv(cfg, s) && WorldEnabled(cfg, s, e)
    ensures Inv(cfg, WorldStep(s, e))
  {
    match e
    case Touch => ObjectEventsKeep(cfg, s, e);
    case ReporterApplies(_, _, _) => ObjectEventsKeep(cfg, s, e);
    case EditAdmitted(_) => EditAdmittedKeeps(cfg, s, e);
    case EditCommits => EditCommitsKeeps(cfg, s, e);
    case EditAbandoned =>
    case _ => RunnerEventsKeep(cfg, s, e);
  }

  lemma StepKeeps(cfg: Config, s: State, e: Event)
    requires cfg.summary.Some? ==> cfg.summary.value.size == |cfg.file|
    requires Inv(cfg, s) && Enabled(cfg, s, e)
    ensures Inv(cfg, Step(cfg, s, e))
  {
    match e
    case OfCapture(c) => CaptureKeeps(cfg, s, c);
    case OfRetention(r) => RetentionKeeps(cfg, s, r);
    case OfWorld(w) => WorldKeeps(cfg, s, w);
  }

  lemma InitHolds(cfg: Config, s: State)
    requires Init(cfg, s)
    ensures Inv(cfg, s)
  {
    assert Entitled(cfg, s.world, 0);
  }
}
