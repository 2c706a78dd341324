/** What holds in every state of every run of the capture lifecycle. */
module LifecycleTheorems {
  import opened Options
  import opened Pcapng
  import opened CaptureState
  import opened Lifecycle
  import opened LifecycleInvariant
  import opened LifecycleSteps

  lemma SummarySize(cfg: Config)
    requires ValidConfig(cfg) && cfg.summary.Some?
    ensures cfg.summary.value.size == |cfg.file|
  {
    assert Summarize(cfg.file).Ok?;
  }

  lemma FollowsKeeps(cfg: Config, s: State, t: State)
    requires ValidConfig(cfg) && Inv(cfg, s) && Follows(cfg, s, t)
    ensures Inv(cfg, t)
  {
    if cfg.summary.Some? { SummarySize(cfg); }
    var e :| Enabled(cfg, s, e) && t == Step(cfg, s, e);
    StepKeeps(cfg, s, e);
  }

  lemma {:induction false} RunKeepsInv(cfg: Config, run: seq<State>, i: nat)
    requires ValidConfig(cfg) && IsRun(cfg, run) && i < |run|
    ensures Inv(cfg, run[i])
  {
    if i == 0 {
      InitHolds(cfg, run[0]);
    } else {
      RunKeepsInv(cfg, run, i - 1);
      FollowsKeeps(cfg, run[i - 1], run[i]);
    }
  }

  /** Some run goes through s. */
  ghost predicate Reached(cfg: Config, s: State) { exists run, i: nat :: IsRun(cfg, run) && i < |run| && run[i] == s }

  lemma ReachedKeepsInv(cfg: Config, s: State)
    requires ValidConfig(cfg) && Reached(cfg, s)
    ensures Inv(cfg, s)
  {
    var run, i: nat :| IsRun(cfg, run) && i < |run| && run[i] == s;
    RunKeepsInv(cfg, run, i);
  }

  lemma StepAt(cfg: Config, run: seq<State>, i: nat) returns (e: Event)
    requires IsRun(cfg, run) && 0 < i < |run|
    ensures Enabled(cfg, run[i - 1], e) && run[i] == Step(cfg, run[i - 1], e)
  {
    assert Follows(cfg, run[i - 1], run[i]);
    e :| Enabled(cfg, run[i - 1], e) && run[i] == Step(cfg, run[i - 1], e);
  }

  // ------------------------------------------------------------ deletion and serving

  /** Nothing that has been issued, stored or committed is taken back. */
  predicate Remembers(w: World, u: World) {
    w.now <= u.now && (w.deleteIssued ==> u.deleteIssued) && w.history <= u.history
  }

  lemma StepRemembers(cfg: Config, s: State, e: Event)
    requires Enabled(cfg, s, e)
    ensures Remembers(s.world, Step(cfg, s, e).world)
  {
  }

  lemma FollowsRemembers(cfg: Config, s: State, t: State)
    requires Follows(cfg, s, t)
    ensures Remembers(s.world, t.world)
  {
    var e :| Enabled(cfg, s, e) && t == Step(cfg, s, e);
    StepRemembers(cfg, s, e);
  }

  lemma RemembersOn(a: World, b: World, c: World)
    requires Remembers(a, b) && Remembers(b, c)
    ensures Remembers(a, c)
  {
  }

  lemma {:induction false} RunRemembers(cfg: Config, run: seq<State>, i: nat, j: nat)
    requires IsRun(cfg, run) && i <= j < |run|
    ensures Remembers(run[i].world, run[j].world)
    decreases j
  {
    if i < j {
      RunRemembers(cfg, run, i, j - 1);
      FollowsRemembers(cfg, run[j - 1], run[j]);
      RemembersOn(run[i].world, run[j - 1].world, run[j].world);
    }
  }

  lemma SealedIsRefused(j: CaptureJob, now: nat, t: nat)
    requires Sealed(j) && j.status.retentionDeadline.value <= now <= t
    ensures DecideDownload(j, t) == DownloadExpired
  {
  }

  /** Once a delete of the artifact object has been issued, in that state and every later one the
      capture has failed, or its current deadline has passed, and no download is ever allowed. */
  lemma DeletedIsNeverServed(cfg: Config, run: seq<State>, i: nat, j: nat, t: nat)
    requires ValidConfig(cfg) && IsRun(cfg, run) && i <= j < |run|
    requires run[i].world.deleteIssued && run[j].world.now <= t
    ensures var job := run[j].world.job;
            || job.status.phase.Failed?
            || (Finished(job) && HasDeadline(job) && job.status.retentionDeadline.value <= run[j].world.now)
    ensures DecideDownload(run[j].world.job, t) != Allowed
  {
    RunKeepsInv(cfg, run, j);
    RunRemembers(cfg, run, i, j);
    HeldCurrent(cfg, run[j].world);
    if Sealed(run[j].world.job) {
      SealedIsRefused(run[j].world.job, run[j].world.now, t);
    }
  }

  lemma ServedIsThere(cfg: Config, run: seq<State>, i: nat, t: nat)
    requires ValidConfig(cfg) && IsRun(cfg, run) && i < |run| && run[i].world.now <= t
    requires DecideDownload(run[i].world.job, t) == Allowed
    ensures run[i].world.payload.Some? && run[i].world.manifest.Some?
    ensures cfg.honest ==>
      && run[i].world.payload.value.bytes == cfg.file
      && run[i].world.job.status.sha256 == Some(cfg.file)
  {
    RunKeepsInv(cfg, run, i);
    HeldCurrent(cfg, run[i].world);
    if run[i].world.deleteIssued {
      DeletedIsNeverServed(cfg, run, i, i, t);
    }
  }

  lemma StoredSince(cfg: Config, run: seq<State>, i: nat, j: nat)
    requires ValidConfig(cfg) && IsRun(cfg, run) && i <= j < |run|
    ensures Since(run[i].world.job, run[j].world.job)
  {
    RunKeepsInv(cfg, run, i);
    RunKeepsInv(cfg, run, j);
    RunRemembers(cfg, run, i, j);
    HeldCurrent(cfg, run[i].world);
    assert run[j].world.history[run[i].world.job.version] == run[i].world.job;
    HeldFacts(cfg, run[j].world, run[i].world.job);
  }

  /** Retention edits take no capture away from its readers.  However many were admitted, and whatever else
      happened, since it completed: once the controller has observed the current spec, the capture is
      downloadable exactly until the deadline that spec implies, with the result it completed with. */
  lemma EditsKeepDownloadable(cfg: Config, run: seq<State>, i: nat, j: nat, t: nat)
    requires ValidConfig(cfg) && IsRun(cfg, run) && i <= j < |run|
    requires run[i].world.job.status.phase.Completed? && run[j].world.job.status.phase.Completed?
    requires run[j].world.job.status.observedGeneration == run[j].world.job.generation
    ensures run[i].world.job.status.completedAt.Some?
    ensures SameResult(run[i].world.job.status, run[j].world.job.status)
    ensures var deadline := run[i].world.job.status.completedAt.value + run[j].world.job.retention;
            DecideDownload(run[j].world.job, t) == if t < deadline then Allowed else DownloadExpired
  {
    RunKeepsInv(cfg, run, j);
    HeldCurrent(cfg, run[j].world);
    StoredSince(cfg, run, i, j);
  }

  /** In every run a download is allowed exactly when the capture is completed, its current spec has been
      observed, and the retention that spec asks for has not run out since it completed; and it is refused for
      good exactly when the capture has expired or its last observed deadline has passed. */
  lemma ServedExactlyWhen(cfg: Config, run: seq<State>, i: nat, t: nat)
    requires ValidConfig(cfg) && IsRun(cfg, run) && i < |run|
    ensures var job := run[i].world.job;
      DecideDownload(job, t) == Allowed <==>
      && job.status.phase.Completed? && job.status.observedGeneration == job.generation
      && job.status.completedAt.Some? && t < job.status.completedAt.value + job.retention
    ensures var job := run[i].world.job;
      DecideDownload(job, t) == DownloadExpired <==>
      || job.status.phase.Expired?
      || (job.status.phase.Completed? && job.status.retentionDeadline.Some? && job.status.retentionDeadline.value <= t)
  {
    RunKeepsInv(cfg, run, i);
    HeldCurrent(cfg, run[i].world);
  }

  /** However often it is edited, a capture is kept for an hour at least and never past the ceiling. */
  lemma RetentionStaysValid(cfg: Config, run: seq<State>, i: nat)
    requires ValidConfig(cfg) && IsRun(cfg, run) && i < |run|
    ensures 3600 <= run[i].world.job.retention <= cfg.ceiling
  {
    RunKeepsInv(cfg, run, i);
    HeldCurrent(cfg, run[i].world);
  }

  /** The generation moves, by one, exactly when the retention does, and then the status does not. */
  predicate EditedAlone(was: CaptureJob, now: CaptureJob) {
    && (now.generation != was.generation <==> now.retention != was.retention)
    && (now.generation != was.generation ==> now.generation == was.generation + 1 && now.status == was.status)
  }

  lemma HeldIsCurrent(cfg: Config, w: World, seen: CaptureJob)
    requires Chronicle(cfg, w) && Held(w, seen) && Current(w, seen)
    ensures seen == w.job
  {
    HeldFacts(cfg, w, seen);
  }

  lemma ControllersEditNothing(cfg: Config, s: State, e: Event)
    requires Chronicle(cfg, s.world) && CaptureInv(cfg, s.world, s.capture) && RetainInv(cfg, s.world, s.retain)
    requires Enabled(cfg, s, e) && !e.OfWorld?
    ensures EditedAlone(s.world.job, Step(cfg, s, e).world.job)
  {
    if e.OfCapture? && s.capture.CWrite? && Current(s.world, s.capture.seen) {
      HeldIsCurrent(cfg, s.world, s.capture.seen);
    } else if e.OfRetention? && s.retain.RWrite? && Current(s.world, s.retain.seen) {
      HeldIsCurrent(cfg, s.world, s.retain.seen);
    }
  }

  lemma OthersEditAlone(cfg: Config, s: State, e: WorldEvent)
    requires Chronicle(cfg, s.world) && EditInv(cfg, s.world, s.edit) && WorldEnabled(cfg, s, e)
    ensures EditedAlone(s.world.job, WorldStep(s, e).world.job)
  {
    if e.EditCommits? { HeldIsCurrent(cfg, s.world, s.edit.base); }
  }

  lemma EditingStep(cfg: Config, s: State, e: Event)
    requires ValidConfig(cfg) && Reached(cfg, s) && Enabled(cfg, s, e)
    ensures EditedAlone(s.world.job, Step(cfg, s, e).world.job)
  {
    ReachedKeepsInv(cfg, s);
    if e.OfWorld? {
      OthersEditAlone(cfg, s, e.world);
    } else {
      ControllersEditNothing(cfg, s, e);
    }
  }

  /** The generation counts the edits, and no controller, reporter or edit ever moves spec and status together. */
  lemma GenerationCountsEdits(cfg: Config, run: seq<State>, i: nat)
    requires ValidConfig(cfg) && IsRun(cfg, run) && 0 < i < |run|
    ensures EditedAlone(run[i - 1].world.job, run[i].world.job)
  {
    var e := StepAt(cfg, run, i);
    EditingStep(cfg, run[i - 1], e);
  }

  // ------------------------------------------------------------ the ledger

  /** No phase is stored before the ledger holds its record; Failed carries its reason and message;
      Expired has both expiry records and an empty bucket. */
  lemma StoredPhaseIsRecorded(cfg: Config, run: seq<State>, i: nat)
    requires ValidConfig(cfg) && IsRun(cfg, run) && i < |run|
    ensures Recorded(run[i].world.ledger, run[i].world.job)
    ensures run[i].world.job.status.phase.Expired? ==> run[i].world.payload.None? && run[i].world.manifest.None?
  {
    RunKeepsInv(cfg, run, i);
    HeldCurrent(cfg, run[i].world);
  }

  // ------------------------------------------------------------ a runner that delivers

  /** With a runner that stores the object, then the manifest, and exits, no stored failure blames it.
      Neither does a record, as long as no delete of the artifact has been issued. */
  lemma DeliveredIsNotFailed(cfg: Config, run: seq<State>, i: nat)
    requires ValidConfig(cfg) && Promising(cfg) && IsRun(cfg, run) && i < |run|
    ensures run[i].world.job.status.phase.Failed? ==>
      run[i].world.job.status.failure.Some? && BeforeRunner(run[i].world.job.status.failure.value.reason)
    ensures TransitionKey(Failed) in run[i].world.ledger && !run[i].world.deleteIssued ==>
      && run[i].world.ledger[TransitionKey(Failed)].FailedFor?
      && BeforeRunner(run[i].world.ledger[TransitionKey(Failed)].reason)
  {
    RunKeepsInv(cfg, run, i);
    HeldCurrent(cfg, run[i].world);
  }

  /** A Failed record that says more than that no runner could be had. */
  predicate Blames(l: Ledger) {
    TransitionKey(Failed) in l && !BlamesNobody(l[TransitionKey(Failed)])
  }

  lemma OnlyCommitsBlame(cfg: Config, s: State, e: Event)
    requires Enabled(cfg, s, e) && !Blames(s.world.ledger) && Blames(Step(cfg, s, e).world.ledger)
    ensures s.capture.CPersist?
    ensures Blames(map[TransitionKey(s.capture.outcome.phase) := TransitionEntry(s.capture.outcome)])
  {
  }

  /** A pass that holds the stored version and fails the capture has found that there is no runner. */
  lemma CurrentPassBlamesNobody(cfg: Config, w: World, seen: CaptureJob, o: Outcome)
    requires Promising(cfg) && Chronicle(cfg, w) && Physical(cfg, w) && Justified(cfg, w, seen, o)
    requires seen.version == w.job.version && o.failure.Some?
    ensures BeforeRunner(o.failure.value.reason) && w.runnerJob.NoJob?
  {
    HeldFacts(cfg, w, seen);
  }

  lemma StalePassBlames(cfg: Config, w: World, seen: CaptureJob, o: Outcome)
    requires Promising(cfg) && Chronicle(cfg, w) && Physical(cfg, w) && Justified(cfg, w, seen, o)
    requires Blames(map[TransitionKey(o.phase) := TransitionEntry(o)])
    ensures seen.version < w.job.version
  {
    HeldFacts(cfg, w, seen);
    if seen.version == w.job.version && o.failure.Some? {
      CurrentPassBlamesNobody(cfg, w, seen, o);
    }
  }

  lemma BlamingStep(cfg: Config, s: State, e: Event)
    requires ValidConfig(cfg) && Promising(cfg) && Reached(cfg, s) && Enabled(cfg, s, e)
    requires !Blames(s.world.ledger) && Blames(Step(cfg, s, e).world.ledger)
    ensures s.capture.CPersist? && s.capture.seen.version < s.world.job.version
  {
    ReachedKeepsInv(cfg, s);
    OnlyCommitsBlame(cfg, s, e);
    StalePassBlames(cfg, s.world, s.capture.seen, s.capture.outcome);
  }

  /** Whenever a record that blames a delivery appears, it is written by a pass holding an older version: a
      pass that holds the stored version never blames a delivery. */
  lemma OnlyStalePassesBlame(cfg: Config, run: seq<State>, i: nat)
    requires ValidConfig(cfg) && Promising(cfg) && IsRun(cfg, run) && 0 < i < |run|
    requires !Blames(run[i - 1].world.ledger) && Blames(run[i].world.ledger)
    ensures run[i - 1].capture.CPersist? && run[i - 1].capture.seen.version < run[i - 1].world.job.version
  {
    var e := StepAt(cfg, run, i);
    BlamingStep(cfg, run[i - 1], e);
  }

  lemma OthersFailNothing(cfg: Config, s: State, e: Event)
    requires Inv(cfg, s) && Enabled(cfg, s, e) && !e.OfCapture?
    ensures Step(cfg, s, e).world.job.status.phase.Failed? ==> s.world.job.status.phase.Failed?
  {
    if e.OfWorld? && s.edit.EAdmitted? {
      HeldFacts(cfg, s.world, s.edit.base);
    } else if e.OfRetention? && s.retain.RWrite? && Current(s.world, s.retain.seen) {
      RetentionFailsNothing(cfg, s.world, s.retain.seen, s.retain.next);
    }
  }

  lemma OnlyCaptureFails(cfg: Config, s: State, e: Event)
    requires Inv(cfg, s) && Enabled(cfg, s, e)
    requires !s.world.job.status.phase.Failed? && Step(cfg, s, e).world.job.status.phase.Failed?
    ensures s.capture.CWrite? && s.capture.next.phase.Failed? && Current(s.world, s.capture.seen)
  {
    if !e.OfCapture? { OthersFailNothing(cfg, s, e); }
  }

  lemma RetentionFailsNothing(cfg: Config, w: World, seen: CaptureJob, next: Status)
    requires Chronicle(cfg, w) && Candidate(cfg, w, seen, next) && IsTerminal(seen.status.phase) && Current(w, seen)
    ensures next.phase.Failed? ==> w.job.status.phase.Failed?
  {
    HeldFacts(cfg, w, seen);
  }

  lemma FailingStep(cfg: Config, s: State, e: Event)
    requires ValidConfig(cfg) && Promising(cfg) && Reached(cfg, s) && Enabled(cfg, s, e)
    requires !s.world.job.status.phase.Failed? && Step(cfg, s, e).world.job.status.phase.Failed?
    ensures s.world.runnerJob.NoJob?
  {
    ReachedKeepsInv(cfg, s);
    OnlyCaptureFails(cfg, s, e);
    HeldFacts(cfg, s.world, s.capture.seen);
  }

  /** With a runner that delivers, a capture fails only while no runner Job exists. */
  lemma FailsOnlyWithoutARunner(cfg: Config, run: seq<State>, i: nat)
    requires ValidConfig(cfg) && Promising(cfg) && IsRun(cfg, run) && 0 < i < |run|
    requires !run[i - 1].world.job.status.phase.Failed? && run[i].world.job.status.phase.Failed?
    ensures run[i - 1].world.runnerJob.NoJob?
  {
    var e := StepAt(cfg, run, i);
    FailingStep(cfg, run[i - 1], e);
  }

  // ------------------------------------------------------------ what is reported

  /** For an honest runner, every finished capture reports what the walker computes on the uploaded
      file, and the object in the bucket, while there is one, is that file. */
  lemma ReportedIsComputed(cfg: Config, run: seq<State>, i: nat)
    requires ValidConfig(cfg) && cfg.honest && IsRun(cfg, run) && i < |run|
    requires Finished(run[i].world.job)
    ensures Summarize(cfg.file).Ok?
    ensures var s := run[i].world.job.status; var sum := Summarize(cfg.file).value;
      s.packetCount == Some(sum.packets) && s.sizeBytes == Some(sum.size) && s.sha256 == Some(sum.hashed)
    ensures run[i].world.payload.Some? ==> run[i].world.payload.value.bytes == cfg.file
  {
    RunKeepsInv(cfg, run, i);
    HeldCurrent(cfg, run[i].world);
  }

  // ------------------------------------------------------------ phases

  function PhaseChanges(h: seq<CaptureJob>): nat {
    if |h| < 2 then 0
    else PhaseChanges(h[..|h| - 1]) + (if h[|h| - 1].status.phase == h[|h| - 2].status.phase then 0 else 1)
  }

  function Height(p: Phase): nat { if p.Failed? then 5 else PhaseOrder(p) }

  lemma {:induction false} ChangesBounded(h: seq<CaptureJob>)
    requires |h| > 0 && forall v :: 0 <= v < |h| - 1 ==> Linked(h, v)
    ensures PhaseChanges(h) <= Height(h[|h| - 1].status.phase)
  {
    if |h| > 1 {
      var g := h[..|h| - 1];
      forall v | 0 <= v < |g| - 1 ensures Linked(g, v) {
        assert Linked(h, v);
      }
      ChangesBounded(g);
      assert Linked(h, |h| - 2);
    }
  }

  /** The phases stored in a run follow permitted transitions and change at most five times. */
  lemma StoredPhasesArePath(cfg: Config, run: seq<State>, i: nat)
    requires ValidConfig(cfg) && IsRun(cfg, run) && i < |run|
    ensures var h := run[i].world.history;
      && PhaseChanges(h) <= 5
      && forall v :: 0 <= v < |h| - 1 ==> !Dropped(h[v].status.phase, h[v + 1].status.phase)
  {
    RunKeepsInv(cfg, run, i);
    var h := run[i].world.history;
    ChangesBounded(h);
    forall v | 0 <= v < |h| - 1 ensures !Dropped(h[v].status.phase, h[v + 1].status.phase) {
      assert Linked(h, v);
    }
  }

  /** Every observation the controller gathers has an outcome, and the outcome is the phase in hand or
      a permitted next one, so the guard before the status write never fires. */
  lemma GuardNeverFires(cfg: Config, run: seq<State>, i: nat)
    requires ValidConfig(cfg) && IsRun(cfg, run) && i < |run|
    ensures var c := run[i].capture; c.CEvaluate? ==>
      Evaluate(c.seen, c.obs).Ok? && !Dropped(c.seen.status.phase, Evaluate(c.seen, c.obs).value.phase)
    ensures run[i].capture.CPersist? ==> !Dropped(run[i].capture.seen.status.phase, run[i].capture.outcome.phase)
  {
    RunKeepsInv(cfg, run, i);
    var c := run[i].capture;
    if c.CEvaluate? {
      HeldFacts(cfg, run[i].world, c.seen);
      GuardFiresExactlyWhen(c.seen, c.obs);
    }
  }
}
