/**
 Why the ledger clause about a runner that delivers needs its condition: a run in which the runner
 delivers, the capture completes and expires normally, and a pass that still holds the first version of
 the object then records that the runner never stored anything.
 */
module LifecycleStale {
  import opened Options
  import opened Pcapng
  import opened CaptureState
  import opened Lifecycle
  import opened LifecyclePaths
  import opened LifecycleInvariant

  function Upload(cfg: Config): StoredObject
    requires cfg.summary.Some?
  {
    StoredObject(cfg.file, Some(cfg.summary.value.hashed), Some(cfg.uid))
  }

  function Described(cfg: Config): Manifest
    requires cfg.summary.Some?
  {
    Manifest(cfg.uid, cfg.summary.value.packets, cfg.summary.value.size, cfg.summary.value.hashed, 0, 0)
  }

  /** Everyone at rest. */
  function Rest(w: World): State { State(w, CIdle, RIdle, EIdle) }

  /** The world as it is created, with job j. */
  function New(j: CaptureJob): World { World(j.created, j, [j], None, None, NotStarted, NoJob, map[], false) }

  predicate Fresh(cfg: Config, j: CaptureJob) {
    j == CaptureJob(j.created, j.retention, j.generation, 0, FRESH) && ValidRetention(cfg, j.retention)
  }

  predicate Delivers(cfg: Config) { Promising(cfg) && cfg.summary.Some? && cfg.summary.value.size == |cfg.file| }

  lemma CreatesRunner(cfg: Config, path: seq<State>, j: CaptureJob) returns (longer: seq<State>)
    requires IsPath(cfg, path) && Fresh(cfg, j) && Last(path) == Rest(New(j))
    ensures IsPath(cfg, longer) && longer[0] == path[0] && Last(longer) == Rest(New(j).(runnerJob := ActiveJob))
  {
    longer := Extend(cfg, path, OfCapture(CaptureReads(0)));
    longer := Extend(cfg, longer, OfCapture(CaptureSeesJob(None)));
    longer := Extend(cfg, longer, OfCapture(CaptureSeesTarget(TargetEligible)));
    longer := Extend(cfg, longer, OfCapture(CaptureEvaluates));
    longer := Extend(cfg, longer, OfCapture(CaptureCreatesJob(false)));
    longer := Extend(cfg, longer, OfCapture(CaptureStops));
  }

  function Stored(cfg: Config, j: CaptureJob): World
    requires cfg.summary.Some?
  {
    New(j).(runnerJob := DoneJob(true, false), runner := Exited(2, true),
            payload := Some(Upload(cfg)), manifest := Some(Readable(Described(cfg))))
  }

  lemma RunnerStores(cfg: Config, path: seq<State>, j: CaptureJob) returns (longer: seq<State>)
    requires IsPath(cfg, path) && Delivers(cfg) && Last(path) == Rest(New(j).(runnerJob := ActiveJob))
    ensures IsPath(cfg, longer) && longer[0] == path[0] && Last(longer) == Rest(Stored(cfg, j))
  {
    longer := Extend(cfg, path, OfWorld(RunnerStarts));
    longer := Extend(cfg, longer, OfWorld(RunnerPutsObject(Upload(cfg), true)));
    longer := Extend(cfg, longer, OfWorld(RunnerPutsManifest(Readable(Described(cfg)), true)));
    longer := Extend(cfg, longer, OfWorld(RunnerExits(true)));
    longer := Extend(cfg, longer, OfWorld(JobFinishes(true, false)));
  }

  function Done(now: nat): Observation {
    Observation(now, TargetUnknown, JobObservation(JobSucceeded, false, None), ArtifactUnknown)
  }

  lemma CaptureLooks(cfg: Config, path: seq<State>, j: CaptureJob) returns (longer: seq<State>, obs: Observation)
    requires IsPath(cfg, path) && Delivers(cfg) && Fresh(cfg, j) && Last(path) == Rest(Stored(cfg, j))
    ensures obs == Done(j.created).(artifact := ArtifactVerifiedState(Some(Described(cfg))))
    ensures IsPath(cfg, longer) && longer[0] == path[0]
    ensures Last(longer) == Rest(Stored(cfg, j)).(capture := CEvaluate(j, obs))
  {
    obs := Done(j.created).(artifact := ArtifactVerifiedState(Some(Described(cfg))));
    longer := Extend(cfg, path, OfCapture(CaptureReads(0)));
    longer := Extend(cfg, longer, OfCapture(CaptureSeesJob(None)));
    longer := Extend(cfg, longer, OfCapture(CaptureHeadsObject(true)));
    longer := Extend(cfg, longer, OfCapture(CaptureGetsManifest(true)));
  }

  /** The completed version: everything a completion sets, ready to be downloaded. */
  predicate Completion(j: CaptureJob, k: CaptureJob) {
    && k.version == 1 && k.retention == j.retention && k.generation == j.generation && k.status.phase.Completed?
    && k.status.completedAt == Some(j.created) && HasDeadline(k) && !Refused(k)
  }

  const COMPLETED: Ledger := map[TransitionKey(Completed) := Entered(Completed)]

  lemma CaptureRecords(cfg: Config, path: seq<State>, j: CaptureJob)
    returns (longer: seq<State>, obs: Observation, o: Outcome)
    requires IsPath(cfg, path) && Delivers(cfg) && Fresh(cfg, j) && Last(path) == Rest(Stored(cfg, j))
    ensures IsPath(cfg, longer) && longer[0] == path[0] && obs.now == j.created && Evaluate(j, obs) == Ok(o)
    ensures obs.artifact == ArtifactVerifiedState(Some(Described(cfg)))
    ensures Last(longer) == Rest(Stored(cfg, j).(ledger := COMPLETED)).(capture := CApply(j, obs, o, true))
  {
    longer, obs := CaptureLooks(cfg, path, j);
    o := Evaluate(j, obs).value;
    longer := Extend(cfg, longer, OfCapture(CaptureEvaluates));
    longer := Extend(cfg, longer, OfCapture(CaptureCommits(true, true)));
  }

  lemma CaptureCompletes(cfg: Config, path: seq<State>, j: CaptureJob) returns (longer: seq<State>, k: CaptureJob)
    requires IsPath(cfg, path) && Delivers(cfg) && Fresh(cfg, j) && Last(path) == Rest(Stored(cfg, j))
    ensures Completion(j, k) && IsPath(cfg, longer) && longer[0] == path[0]
    ensures Last(longer) == Rest(Write(Stored(cfg, j).(ledger := COMPLETED), k))
  {
    var obs, o;
    longer, obs, o := CaptureRecords(cfg, path, j);
    longer := Extend(cfg, longer, OfCapture(CaptureApplies));
    k := Bump(j, ApplyOutcome(j, obs, o, true, j.created));
    longer := Extend(cfg, longer, OfCapture(CaptureWrites(true, true)));
  }

  /** A completed, overdue capture loses its artifact. */
  lemma RetentionRefuses(cfg: Config, path: seq<State>, w: World) returns (longer: seq<State>, u: World)
    requires IsPath(cfg, path) && Last(path) == Rest(w) && |w.history| == 2 && w.job == w.history[1]
    requires w.job.version == 1
    requires w.job.status.phase.Completed? && HasDeadline(w.job) && !Refused(w.job)
    requires w.job.status.retentionDeadline.value <= w.now
    ensures IsPath(cfg, longer) && longer[0] == path[0] && |u.history| == 3 && u.history[..2] == w.history
    ensures u.job.version == 2
    ensures u == Write(w, u.job) && u.job.status == w.job.status.(downloadable := Some(Refusal(w.job.generation)))
    ensures Last(longer) == State(u, CIdle, RIntend(u.job), EIdle)
  {
    longer := Extend(cfg, path, OfRetention(RetentionReads(1)));
    longer := Extend(cfg, longer, OfRetention(RetentionObservesDeadline));
    longer := Extend(cfg, longer, OfRetention(RetentionReadsClock));
    longer := Extend(cfg, longer, OfRetention(RetentionDenies));
    longer := Extend(cfg, longer, OfRetention(RetentionWrites(true, true)));
    u := Last(longer).world;
  }

  lemma RetentionDeletesBoth(cfg: Config, path: seq<State>, w: World) returns (longer: seq<State>, u: World)
    requires IsPath(cfg, path) && Last(path) == State(w, CIdle, RIntend(w.job), EIdle) && !w.job.status.phase.Failed?
    requires ExpiryKey(Allow) !in w.ledger
    ensures IsPath(cfg, longer) && longer[0] == path[0] && Last(longer) == State(u, CIdle, ROutcome(u.job), EIdle)
    ensures u == w.(ledger := w.ledger[ExpiryKey(Allow) := Expiry(0)], deleteIssued := true, payload := None,
                    manifest := None)
  {
    longer := Extend(cfg, path, OfRetention(RetentionCommits(true, true)));
    longer := Extend(cfg, longer, OfRetention(RetentionDeletes(true, true, 0)));
    longer := Extend(cfg, longer, OfRetention(RetentionHeads(true, 0)));
    longer := Extend(cfg, longer, OfRetention(RetentionDeletes(true, true, 0)));
    longer := Extend(cfg, longer, OfRetention(RetentionHeads(true, 0)));
    u := Last(longer).world;
  }

  lemma RetentionFinishes(cfg: Config, path: seq<State>, w: World) returns (longer: seq<State>, u: World)
    requires IsPath(cfg, path) && Last(path) == State(w, CIdle, ROutcome(w.job), EIdle)
    requires ExpiryKey(Succeed) !in w.ledger
    ensures IsPath(cfg, longer) && longer[0] == path[0] && Last(longer) == Rest(u)
    ensures u == Write(w, u.job).(ledger := w.ledger[ExpiryKey(Succeed) := Expiry(0)])
    ensures u.job.status.phase.Expired? && u.job.version == w.job.version + 1
  {
    longer := Extend(cfg, path, OfRetention(RetentionCommits(true, true)));
    longer := Extend(cfg, longer, OfRetention(RetentionExpires));
    longer := Extend(cfg, longer, OfRetention(RetentionWrites(true, true)));
    u := Last(longer).world;
  }

  /** A pass that holds an unfinished version finds an ended Job and an empty bucket. */
  lemma StalePassConcludes(cfg: Config, path: seq<State>, w: World, v: nat)
    returns (longer: seq<State>, obs: Observation)
    requires IsPath(cfg, path) && Last(path) == Rest(w) && v < |w.history| && !IsTerminal(w.history[v].status.phase)
    requires w.runnerJob == DoneJob(true, false) && w.payload.None? && w.manifest.None?
    ensures obs == Done(w.now).(artifact := ArtifactAbsent) && IsPath(cfg, longer) && longer[0] == path[0]
    ensures Last(longer) == Rest(w).(capture := CEvaluate(w.history[v], obs))
  {
    obs := Done(w.now).(artifact := ArtifactAbsent);
    longer := Extend(cfg, path, OfCapture(CaptureReads(v)));
    longer := Extend(cfg, longer, OfCapture(CaptureSeesJob(None)));
    longer := Extend(cfg, longer, OfCapture(CaptureHeadsObject(true)));
    longer := Extend(cfg, longer, OfCapture(CaptureHeadsManifest(true)));
  }

  predicate Blamed(l: Ledger) {
    TransitionKey(Failed) in l && l[TransitionKey(Failed)] == FailedFor(ArtifactMissing, NoArtifactAfterSuccess)
  }

  /** The last step was a pass holding version v committing its outcome. */
  predicate BlamedBy(path: seq<State>, v: nat) {
    && |path| > 1 && Blamed(path[|path| - 1].world.ledger) && !Blamed(path[|path| - 2].world.ledger)
    && path[|path| - 2].capture.CPersist? && path[|path| - 2].capture.seen.version == v
  }

  lemma StalePassDecides(cfg: Config, path: seq<State>, w: World, v: nat) returns (longer: seq<State>, c: CapturePass)
    requires IsPath(cfg, path) && Last(path) == Rest(w)
    requires v < |w.history| && !IsTerminal(w.history[v].status.phase) && w.history[v].status.runnerResult.None?
    requires w.runnerJob == DoneJob(true, false) && w.payload.None? && w.manifest.None?
    ensures IsPath(cfg, longer) && longer[0] == path[0] && Last(longer) == Rest(w).(capture := c)
    ensures c.CPersist? && c.seen == w.history[v] && c.outcome.phase.Failed?
    ensures TransitionEntry(c.outcome) == FailedFor(ArtifactMissing, NoArtifactAfterSuccess)
  {
    var obs;
    longer, obs := StalePassConcludes(cfg, path, w, v);
    EvaluateBlames(w.history[v], obs);
    longer := Extend(cfg, longer, OfCapture(CaptureEvaluates));
    c := Last(longer).capture;
  }

  /** Wherever a pass can hold an unfinished version while the bucket is empty, the record follows. */
  lemma StalePassRecords(cfg: Config, path: seq<State>, w: World, v: nat) returns (longer: seq<State>)
    requires IsPath(cfg, path) && Last(path) == Rest(w)
    requires v < |w.history| && w.history[v].version == v && !IsTerminal(w.history[v].status.phase)
    requires w.runnerJob == DoneJob(true, false) && w.payload.None? && w.manifest.None?
    requires w.history[v].status.runnerResult.None? && TransitionKey(Failed) !in w.ledger
    ensures IsPath(cfg, longer) && longer[0] == path[0] && BlamedBy(longer, v) && Last(longer).world.job == w.job
  {
    var c;
    longer, c := StalePassDecides(cfg, path, w, v);
    longer := Extend(cfg, longer, OfCapture(CaptureCommits(true, true)));
  }

  lemma Expires(cfg: Config, path: seq<State>, w: World) returns (longer: seq<State>, u: World)
    requires IsPath(cfg, path) && Last(path) == Rest(w)
    requires |w.history| == 2 && w.job == w.history[1] && w.job.version == 1
    requires w.job.status.phase.Completed? && HasDeadline(w.job) && !Refused(w.job)
    requires w.ledger == COMPLETED
    ensures IsPath(cfg, longer) && longer[0] == path[0] && Last(longer) == Rest(u)
    ensures |u.history| == 4 && u.history[..2] == w.history && u.job.version == 3
    ensures u.runnerJob == w.runnerJob && u.payload.None? && u.manifest.None?
    ensures u.job.status.phase.Expired? && TransitionKey(Failed) !in u.ledger
  {
    longer := Extend(cfg, path, OfWorld(Tick(w.job.status.retentionDeadline.value)));
    var late := w.(now := w.now + w.job.status.retentionDeadline.value);
    longer, u := RetentionRefuses(cfg, longer, late);
    longer, u := RetentionDeletesBoth(cfg, longer, u);
    longer, u := RetentionFinishes(cfg, longer, u);
  }

  /** For every runner that delivers there is a run in which the capture completes and expires as it should,
      and a pass still holding its first version then blames the runner. */
  lemma LedgerCanBlameADelivery(cfg: Config, j: CaptureJob)
    requires Delivers(cfg) && Fresh(cfg, j)
    ensures exists run: seq<State> ::
      && IsRun(cfg, run) && BlamedBy(run, 0)
      && Last(run).world.job.status.phase.Expired? && Last(run).world.job.version == 3
  {
    var run := [Rest(New(j))];
    run := CreatesRunner(cfg, run, j);
    run := RunnerStores(cfg, run, j);
    var k, w;
    run, k := CaptureCompletes(cfg, run, j);
    run, w := Expires(cfg, run, Last(run).world);
    assert w.history[0] == j;
    run := StalePassRecords(cfg, run, w, 0);
    assert IsRun(cfg, run);
  }
}
