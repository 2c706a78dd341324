/**
 What a stored status says rests on what was reported and what lies in the bucket, whoever uploaded it.
 */
module LifecycleEvidence {
  import opened Options
  import opened Pcapng
  import opened CaptureState
  import opened Lifecycle
  import opened LifecycleInvariant
  import opened LifecycleSteps
  import opened LifecycleTheorems

  /** The stored object carries this checksum and has this length and no other owner. */
  predicate ObjectAgrees(cfg: Config, o: StoredObject, size: Option<nat>, sha: Option<seq<Byte>>) {
    && size == Some(|o.bytes|) && o.sha.Some? && sha == o.sha
    && (o.uid.Some? ==> o.uid.value == cfg.uid)
  }

  /** The stored manifest belongs to the capture and gives these figures. */
  predicate ManifestAgrees(cfg: Config, m: StoredManifest, packets: Option<nat>, size: Option<nat>,
                           sha: Option<seq<Byte>>) {
    && m.Readable? && m.manifest.uid == cfg.uid
    && packets == Some(m.manifest.packets) && size == Some(m.manifest.size) && sha == Some(m.manifest.sha)
  }

  /** Both uploads are over, and what is left of them agrees with these figures. */
  predicate Backed(cfg: Config, w: World, packets: Option<nat>, size: Option<nat>, sha: Option<seq<Byte>>) {
    && Stage(w.runner) == 2
    && (w.payload.Some? ==> ObjectAgrees(cfg, w.payload.value, size, sha))
    && (w.manifest.Some? ==> ManifestAgrees(cfg, w.manifest.value, packets, size, sha))
  }

  /** A phase is claimed only once its beginning was reported. */
  predicate Told(p: Phase, s: Status) {
    && (p.Capturing? ==> s.startedAt.Some?)
    && (p.Storing? ==> s.captureEndedAt.Some?)
  }

  predicate Shown(cfg: Config, w: World, s: Status) {
    && Told(s.phase, s)
    && (s.phase.Completed? || s.phase.Expired? ==> Backed(cfg, w, s.packetCount, s.sizeBytes, s.sha256))
  }

  predicate OutcomeShown(cfg: Config, w: World, seen: CaptureJob, o: Outcome) {
    && seen.version <= w.job.version && (Current(w, seen) ==> Told(o.phase, seen.status))
    && (o.completion.Some? ==>
          var c := o.completion.value; Backed(cfg, w, Some(c.packets), Some(c.size), Some(c.sha)))
  }

  predicate PassShown(cfg: Config, w: World, c: CapturePass) {
    match c
    case CManifest(_, _, info) => Stage(w.runner) >= 1 && (w.payload.Some? ==> Info(w.payload.value) == info)
    case CEvaluate(_, obs) =>
      obs.artifact.ArtifactVerifiedState? && obs.artifact.manifest.Some? ==>
        var m := obs.artifact.manifest.value; Backed(cfg, w, Some(m.packets), Some(m.size), Some(m.sha))
    case CCreate(seen, _, o) => OutcomeShown(cfg, w, seen, o)
    case CPersist(seen, _, o, _) => OutcomeShown(cfg, w, seen, o)
    case CApply(seen, _, o, _) => OutcomeShown(cfg, w, seen, o)
    case CWrite(seen, next, _) => seen.version <= w.job.version && (Current(w, seen) ==> Shown(cfg, w, next))
    case _ => true
  }

  predicate Evidence(cfg: Config, s: State) {
    Shown(cfg, s.world, s.world.job.status) && PassShown(cfg, s.world, s.capture)
  }

  // ------------------------------------------------------------ what everyone leaves in place

  /** What was uploaded stays or goes, and a version is replaced by a later one. */
  predicate Fades(w: World, u: World) {
    && (Stage(w.runner) >= 1 ==> Stage(u.runner) >= 1 && (u.payload.Some? ==> u.payload == w.payload))
    && (Stage(w.runner) == 2 ==> Stage(u.runner) == 2 && (u.manifest.Some? ==> u.manifest == w.manifest))
    && w.job.version <= u.job.version && (w.job.version == u.job.version ==> w.job == u.job)
  }

  lemma StepFades(cfg: Config, s: State, e: Event)
    requires Enabled(cfg, s, e)
    ensures Fades(s.world, Step(cfg, s, e).world)
  {
  }

  lemma BackedFades(cfg: Config, w: World, u: World, packets: Option<nat>, size: Option<nat>, sha: Option<seq<Byte>>)
    requires Backed(cfg, w, packets, size, sha) && Fades(w, u)
    ensures Backed(cfg, u, packets, size, sha)
  {
  }

  lemma ShownFades(cfg: Config, w: World, u: World, s: Status)
    requires Shown(cfg, w, s) && Fades(w, u)
    ensures Shown(cfg, u, s)
  {
  }

  lemma PassFades(cfg: Config, w: World, u: World, c: CapturePass)
    requires PassShown(cfg, w, c) && Fades(w, u)
    ensures PassShown(cfg, u, c)
  {
    if c.CWrite? && Current(u, c.seen) && Current(w, c.seen) { ShownFades(cfg, w, u, c.next); }
  }

  // ------------------------------------------------------------ the stored version

  /** A version that replaces a finished one repeats its result. */
  lemma SuccessorShown(cfg: Config, w: World, j: CaptureJob)
    requires Shown(cfg, w, w.job.status) && Successor(w.job, j) && IsTerminal(w.job.status.phase)
    ensures Shown(cfg, w, j.status)
  {
  }

  /** The reporter only ever adds to what was told; edits and touches leave the status alone. */
  lemma OthersWriteShown(cfg: Config, s: State, e: WorldEvent)
    requires Shown(cfg, s.world, s.world.job.status) && WorldEnabled(cfg, s, e)
    requires e.EditCommits? ==> s.edit.base == s.world.job
    ensures Shown(cfg, s.world, WorldStep(s, e).world.job.status)
  {
  }

  // ------------------------------------------------------------ the capture controller

  /** What verification compares is what is stored. */
  lemma VerifiedIsBacked(cfg: Config, w: World, m: Manifest, info: ObjectInfo)
    requires w.manifest == Some(Readable(m)) && VerifyArtifact(m, cfg.uid, info) && Stage(w.runner) == 2
    requires w.payload.Some? ==> Info(w.payload.value) == info
    ensures Backed(cfg, w, Some(m.packets), Some(m.size), Some(m.sha))
  {
  }

  lemma ManifestReadShown(cfg: Config, s: State, e: CaptureEvent)
    requires PassShown(cfg, s.world, s.capture) && CaptureEnabled(s, e) && e.CaptureGetsManifest?
    requires Physical(cfg, s.world)
    ensures PassShown(cfg, s.world, CaptureStep(cfg, s, e).capture)
  {
    var a := GetManifest(cfg, s.world, s.capture.info);
    if e.reached && a.ArtifactVerifiedState? {
      VerifiedIsBacked(cfg, s.world, a.manifest.value, s.capture.info);
    }
  }

  lemma EvaluateShown(cfg: Config, w: World, seen: CaptureJob, obs: Observation)
    requires PassShown(cfg, w, CEvaluate(seen, obs)) && Gathered(seen, obs)
    requires seen.version <= w.job.version && (Current(w, seen) ==> Told(seen.status.phase, seen.status))
    ensures Evaluate(seen, obs).Ok? && OutcomeShown(cfg, w, seen, Evaluate(seen, obs).value)
  {
    EvaluateDecides(seen, obs);
    if obs.artifact.ArtifactUnavailable? || (obs.job.state.JobActive? && !Decisive(obs.artifact)) {
      EvaluateFollowsTheRunner(seen, obs);
    }
  }

  lemma EvaluatesShown(cfg: Config, s: State, e: CaptureEvent)
    requires Inv(cfg, s) && Evidence(cfg, s) && CaptureEnabled(s, e) && e.CaptureEvaluates?
    ensures PassShown(cfg, s.world, CaptureStep(cfg, s, e).capture)
  {
    HeldFacts(cfg, s.world, s.capture.seen);
    HeldCurrent(cfg, s.world);
    EvaluateShown(cfg, s.world, s.capture.seen, s.capture.obs);
  }

  lemma AppliedShown(cfg: Config, w: World, seen: CaptureJob, obs: Observation, o: Outcome, hasJob: bool, now: nat)
    requires OutcomeShown(cfg, w, seen, o) && Current(w, seen) && !o.phase.Expired?
    requires o.completion.Some? <==> o.phase.Completed?
    ensures Shown(cfg, w, ApplyOutcome(seen, obs, o, hasJob, now))
  {
  }

  lemma AppliesShown(cfg: Config, s: State, e: CaptureEvent)
    requires Inv(cfg, s) && Evidence(cfg, s) && CaptureEnabled(s, e) && e.CaptureApplies?
    ensures PassShown(cfg, s.world, CaptureStep(cfg, s, e).capture)
  {
    var c := s.capture;
    if Current(s.world, c.seen) { AppliedShown(cfg, s.world, c.seen, c.obs, c.outcome, c.hasJob, s.world.now); }
  }

  /** A pass that writes back the version it read, or moves its deadline. */
  lemma RewritesShown(cfg: Config, s: State, e: CaptureEvent)
    requires Inv(cfg, s) && Evidence(cfg, s) && CaptureEnabled(s, e)
    requires e.CaptureReconcilesTerminal? || e.CaptureReportsUnavailable? || e.CaptureCommits?
    ensures PassShown(cfg, s.world, CaptureStep(cfg, s, e).capture)
  {
    HeldFacts(cfg, s.world, s.capture.seen);
    HeldCurrent(cfg, s.world);
  }

  lemma LooksShown(cfg: Config, s: State, e: CaptureEvent)
    requires Inv(cfg, s) && Evidence(cfg, s) && CaptureEnabled(s, e)
    requires
      || e.CaptureReads? || e.CaptureStops? || e.CaptureSeesJob? || e.CaptureSeesTarget? || e.CaptureHeadsObject?
      || e.CaptureHeadsManifest? || e.CaptureCreatesJob? || e.CaptureWrites? || e.CaptureDeletes?
    ensures PassShown(cfg, s.world, CaptureStep(cfg, s, e).capture)
  {
  }

  lemma DecidesShown(cfg: Config, s: State, e: CaptureEvent)
    requires Inv(cfg, s) && Evidence(cfg, s) && CaptureEnabled(s, e)
    requires e.CaptureGetsManifest? || e.CaptureEvaluates? || e.CaptureApplies?
    ensures PassShown(cfg, s.world, CaptureStep(cfg, s, e).capture)
  {
    if e.CaptureGetsManifest? {
      ManifestReadShown(cfg, s, e);
    } else if e.CaptureEvaluates? {
      EvaluatesShown(cfg, s, e);
    } else {
      AppliesShown(cfg, s, e);
    }
  }

  lemma CaptureShown(cfg: Config, s: State, e: CaptureEvent)
    requires Inv(cfg, s) && Evidence(cfg, s) && CaptureEnabled(s, e)
    ensures PassShown(cfg, s.world, CaptureStep(cfg, s, e).capture)
  {
    if e.CaptureGetsManifest? || e.CaptureEvaluates? || e.CaptureApplies? {
      DecidesShown(cfg, s, e);
    } else if e.CaptureReconcilesTerminal? || e.CaptureReportsUnavailable? || e.CaptureCommits? {
      RewritesShown(cfg, s, e);
    } else {
      LooksShown(cfg, s, e);
    }
  }

  // ------------------------------------------------------------ every step

  lemma StoredShown(cfg: Config, s: State, e: Event)
    requires Inv(cfg, s) && Evidence(cfg, s) && Enabled(cfg, s, e)
    ensures Shown(cfg, s.world, Step(cfg, s, e).world.job.status)
  {
    match e
    case OfCapture(_) =>
    case OfRetention(r) =>
      if r.RetentionWrites? && r.landed {
        HeldFacts(cfg, s.world, s.retain.seen);
        SuccessorShown(cfg, s.world, Bump(s.retain.seen, s.retain.next));
      }
    case OfWorld(w) =>
      if w.EditCommits? { HeldFacts(cfg, s.world, s.edit.base); }
      OthersWriteShown(cfg, s, w);
  }

  lemma StepShown(cfg: Config, s: State, e: Event)
    requires Inv(cfg, s) && Evidence(cfg, s) && Enabled(cfg, s, e)
    ensures Evidence(cfg, Step(cfg, s, e))
  {
    var t := Step(cfg, s, e);
    StepFades(cfg, s, e);
    StoredShown(cfg, s, e);
    ShownFades(cfg, s.world, t.world, t.world.job.status);
    if e.OfCapture? { CaptureShown(cfg, s, e.capture); }
    PassFades(cfg, s.world, t.world, t.capture);
  }

  lemma {:induction false} RunShows(cfg: Config, run: seq<State>, i: nat)
    requires ValidConfig(cfg) && IsRun(cfg, run) && i < |run|
    ensures Evidence(cfg, run[i])
  {
    if i > 0 {
      RunShows(cfg, run, i - 1);
      RunKeepsInv(cfg, run, i - 1);
      var e := StepAt(cfg, run, i);
      StepShown(cfg, run[i - 1], e);
    }
  }

  // ------------------------------------------------------------ results

  /** Whoever runs and whatever it uploads: a download is allowed only while the stored object and manifest
      are both there, belong to the capture and agree with each other and with what the status says; and for
      an honest runner the object is the captured file. */
  lemma ServedIsStored(cfg: Config, run: seq<State>, i: nat, t: nat)
    requires ValidConfig(cfg) && IsRun(cfg, run) && i < |run| && run[i].world.now <= t
    requires DecideDownload(run[i].world.job, t) == Allowed
    ensures var w := run[i].world;
      && w.payload.Some? && w.manifest.Some? && w.manifest.value.Readable?
      && w.payload.value.sha == w.job.status.sha256 == Some(w.manifest.value.manifest.sha)
      && w.job.status.sizeBytes == Some(|w.payload.value.bytes|) == Some(w.manifest.value.manifest.size)
      && w.job.status.packetCount == Some(w.manifest.value.manifest.packets)
      && (w.payload.value.uid.Some? ==> w.payload.value.uid.value == cfg.uid)
      && w.manifest.value.manifest.uid == cfg.uid
      && (cfg.honest ==> w.payload.value.bytes == cfg.file && w.job.status.sha256 == Some(cfg.file))
  {
    ServedIsThere(cfg, run, i, t);
    RunShows(cfg, run, i);
  }

  /** No stored phase runs ahead of the reporter: Capturing was preceded by a reported start, Storing by a
      reported end. */
  lemma StoredPhaseWasReported(cfg: Config, run: seq<State>, i: nat)
    requires ValidConfig(cfg) && IsRun(cfg, run) && i < |run|
    ensures run[i].world.job.status.phase.Capturing? ==> run[i].world.job.status.startedAt.Some?
    ensures run[i].world.job.status.phase.Storing? ==> run[i].world.job.status.captureEndedAt.Some?
  {
    RunShows(cfg, run, i);
  }
}
