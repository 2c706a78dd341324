/**
 The retention controller's pass in its own form, and that every pass is a stretch of a run of the
 lifecycle: each call it makes, with the outcome it meets, is a step of the state machine.
 */
module RetentionReconciler {
  import opened Options
  import opened CaptureState
  import opened Lifecycle
  import opened LifecyclePaths

  /** One outcome for every call a pass can make. */
  datatype Weather = Weather(deadline: Effect, deny: Effect, intent: Effect, deleteObject: Effect, headObject: Effect,
                             deleteManifest: Effect, headManifest: Effect, outcome: Effect, mark: Effect,
                             fault: Effect, expire: Effect)

  const CALM := Weather(Works, Works, Works, Works, Works, Works, Works, Works, Works, Works, Works)

  class RetentionReconciler {
    ghost const cfg: Config
    var world: World
    ghost const capture: CapturePass
    ghost const edit: EditPass
    /** The states of the lifecycle this pass has gone through. */
    ghost var trace: seq<State>

    constructor (ghost cfg: Config, world: World, ghost capture: CapturePass, ghost edit: EditPass)
      ensures this.cfg == cfg && this.world == world && this.capture == capture && this.edit == edit
      ensures At(RIdle) && trace == [State(world, capture, RIdle, edit)]
    {
      this.cfg, this.world, this.capture, this.edit := cfg, world, capture, edit;
      trace := [State(world, capture, RIdle, edit)];
    }

    /** The trace is a path of the lifecycle, and it ends here. */
    ghost predicate At(r: RetentionPass)
      reads this
    {
      IsPath(cfg, trace) && Last(trace) == State(world, capture, r, edit)
    }

    method UpdateStatus(job: CaptureJob, next: Status, ghost after: After, f: Effect)
      returns (ok: bool, stored: CaptureJob)
      requires At(RWrite(job, next, after))
      modifies this
      ensures At(if ok then Resume(after, stored) else RIdle) && trace[0] == old(trace[0])
      ensures stored == Bump(job, next)
      ensures ok <==> f.Works? && job.version == old(world).job.version
      ensures world == Noted(old(world), job, next, f)
    {
      stored := Bump(job, next);
      var landed := Lands(f) && job.version == world.job.version;
      ok := landed && f.Works?;
      trace := Extend(cfg, trace, OfRetention(RetentionWrites(landed, ok)));
      if landed { world := Write(world, stored); }
    }

    method AuditExpiry(key: LedgerKey, entry: Entry, ghost at: RetentionPass, f: Effect) returns (ok: bool)
      requires At(at) && (at.RIntend? || at.ROutcome? || at.RFault?) && RetentionEntry(at) == (key, entry)
      modifies this
      ensures At(if !ok || at.RFault? then RIdle else if at.RIntend? then RDeleteObject(at.seen) else RExpire(at.seen))
      ensures trace[0] == old(trace[0])
      ensures ok <==> f.Works? && CanAck(old(world).ledger, key, entry)
      ensures world == old(world).(ledger := Commit(old(world).ledger, key, entry, ok || Lands(f)))
    {
      ok := f.Works? && (key in world.ledger ==> world.ledger[key] == entry);
      trace := Extend(cfg, trace, OfRetention(RetentionCommits(ok, Lands(f))));
      world := world.(ledger := Commit(world.ledger, key, entry, ok || Lands(f)));
    }

    /** Deletes the object and asks the store whether it is gone. */
    method RemoveObject(job: CaptureJob, w: Weather, note: nat) returns (ok: bool)
      requires At(RDeleteObject(job))
      modifies this
      ensures At(if ok then RDeleteManifest(job) else DeleteFailed(job, note)) && trace[0] == old(trace[0])
      ensures world == old(world).(deleteIssued := true,
                                   payload := if Lands(w.deleteObject) then None else old(world).payload)
      ensures ok <==> Reports(w.deleteObject) && w.headObject.Works? && world.payload.None?
    {
      var acked := Reports(w.deleteObject);
      trace := Extend(cfg, trace, OfRetention(RetentionDeletes(Lands(w.deleteObject), acked, note)));
      world := world.(deleteIssued := true, payload := if Lands(w.deleteObject) then None else world.payload);
      if !acked { return false; }
      ok := w.headObject.Works? && world.payload.None?;
      trace := Extend(cfg, trace, OfRetention(RetentionHeads(w.headObject.Works?, note)));
    }

    method RemoveManifest(job: CaptureJob, w: Weather, note: nat) returns (ok: bool)
      requires At(RDeleteManifest(job))
      modifies this
      ensures At(if !ok then DeleteFailed(job, note) else if job.status.phase.Failed? then RIdle else ROutcome(job))
      ensures trace[0] == old(trace[0])
      ensures world == old(world).(manifest := if Lands(w.deleteManifest) then None else old(world).manifest)
      ensures ok <==> Reports(w.deleteManifest) && w.headManifest.Works? && world.manifest.None?
    {
      var acked := Reports(w.deleteManifest);
      trace := Extend(cfg, trace, OfRetention(RetentionDeletes(Lands(w.deleteManifest), acked, note)));
      world := world.(manifest := if Lands(w.deleteManifest) then None else world.manifest);
      if !acked { return false; }
      ok := w.headManifest.Works? && world.manifest.None?;
      trace := Extend(cfg, trace, OfRetention(RetentionHeads(w.headManifest.Works?, note)));
    }

    /** Both keys, in order, each verified absent before the next. */
    method RemoveArtifact(job: CaptureJob, w: Weather, note: nat) returns (ok: bool)
      requires At(RDeleteObject(job))
      modifies this
      ensures At(if !ok then DeleteFailed(job, note) else if job.status.phase.Failed? then RIdle else ROutcome(job))
      ensures trace[0] == old(trace[0])
      ensures world == old(world).(deleteIssued := true, payload := world.payload, manifest := world.manifest)
      ensures ok <==>
              && Reports(w.deleteObject) && w.headObject.Works? && world.payload.None?
              && Reports(w.deleteManifest) && w.headManifest.Works? && world.manifest.None?
      ensures w == CALM ==> ok
    {
      ok := RemoveObject(job, w, note);
      if ok { ok := RemoveManifest(job, w, note); }
    }

    /** Refuses the download before anything is deleted. */
    method DenyDownload(job: CaptureJob, f: Effect) returns (ok: bool, refused: CaptureJob)
      requires At(RDeny(job))
      modifies this
      ensures At(if ok then RIntend(refused) else RIdle) && trace[0] == old(trace[0])
      ensures ok ==> refused.status == job.status.(downloadable := Some(Refusal(job.generation)))
      ensures ok && job == old(world).job ==> refused == world.job
      ensures world == if Refused(job) then old(world)
                       else Noted(old(world), job, job.status.(downloadable := Some(Refusal(job.generation))), f)
      ensures f.Works? && job == old(world).job ==> ok
    {
      trace := Extend(cfg, trace, OfRetention(RetentionDenies));
      if job.status.downloadable == Some(Refusal(job.generation)) { return true, job; }
      ok, refused := UpdateStatus(job, job.status.(downloadable := Some(Refusal(job.generation))), ThenIntend, f);
    }

    /** A deletion that did not happen: marked on the object, then recorded. */
    method MarkRetentionFailed(job: CaptureJob, w: Weather, note: nat)
      requires At(RWrite(job, job.status, ThenFault(note)))
      modifies this
      ensures At(RIdle) && trace[0] == old(trace[0])
      ensures world == old(world).(job := world.job, history := world.history, ledger := world.ledger)
      ensures world.job == Noted(old(world), job, job.status, w.mark).job
      ensures forall k :: k != ExpiryKey(Fault) ==> (k in world.ledger <==> k in old(world).ledger)
      ensures forall k :: k in old(world).ledger ==> k in world.ledger && world.ledger[k] == old(world).ledger[k]
      ensures ExpiryKey(Fault) in world.ledger <==>
              || ExpiryKey(Fault) in old(world).ledger
              || (w.mark.Works? && job.version == old(world).job.version && Lands(w.fault))
    {
      var ok, marked := UpdateStatus(job, job.status, ThenFault(note), w.mark);
      if ok { var _ := AuditExpiry(ExpiryKey(Fault), Expiry(note), RFault(marked, note), w.fault); }
    }

    /** The last status write of an expiry. */
    method RecordExpiry(job: CaptureJob, f: Effect)
      requires At(RExpire(job))
      modifies this
      ensures At(RIdle) && trace[0] == old(trace[0])
      ensures world == Noted(old(world), job,
                             job.status.(phase := Expired, downloadable := Some(Refusal(job.generation))), f)
    {
      var next := job.status.(phase := Expired, downloadable := Some(Refusal(job.generation)));
      trace := Extend(cfg, trace, OfRetention(RetentionExpires));
      var _, _ := UpdateStatus(job, next, ThenStop, f);
    }

    /** Refuse, record the intent, delete and verify, record the outcome, then say so. */
    method Expire(job: CaptureJob, w: Weather, note: nat)
      requires At(RDeny(job)) && !job.status.phase.Failed?
      modifies this
      ensures At(RIdle) && trace[0] == old(trace[0])
      ensures w == CALM && job == old(world).job && Unopposed(old(world).ledger) ==> Gone(world)
    {
      var ok, refused := DenyDownload(job, w.deny);
      if !ok { return; }
      ok := AuditExpiry(ExpiryKey(Allow), Expiry(0), RIntend(refused), w.intent);
      if !ok { return; }
      ok := RemoveArtifact(refused, w, note);
      if !ok {
        MarkRetentionFailed(refused, w, note);
        return;
      }
      ok := AuditExpiry(ExpiryKey(Succeed), Expiry(0), ROutcome(refused), w.outcome);
      if !ok { return; }
      RecordExpiry(refused, w.expire);
    }

    /** The deadline the completion time and the current spec imply, written back when it moved. */
    method ObservedDeadline(job: CaptureJob, f: Effect) returns (ok: bool, dated: CaptureJob)
      requires At(ObserveDeadline(job)) && job.status.phase.Completed?
      modifies this
      ensures At(if ok then RClock(dated) else RIdle) && trace[0] == old(trace[0])
      ensures ok ==> dated.status.phase.Completed? && HasDeadline(dated) && dated.retention == job.retention
      ensures ok ==> dated.status == job.status.(retentionDeadline := dated.status.retentionDeadline)
      ensures world == if job.status.completedAt.None? || HasDeadline(job) then old(world)
                       else Noted(old(world), job, Redated(job), f)
      ensures f.Works? && job == old(world).job && job.status.completedAt.Some? ==> ok && dated == world.job
    {
      if job.status.completedAt.None? { return false, job; }
      var want := job.status.completedAt.value + job.retention;
      if job.status.retentionDeadline == Some(want) { return true, job; }
      ok, dated := UpdateStatus(job, job.status.(retentionDeadline := Some(want)), ThenClock, f);
    }

    /** One pass over one stored version of the object, possibly an old one. */
    method Reconcile(version: nat, w: Weather, note: nat)
      requires At(RIdle) && version < |world.history|
      modifies this
      ensures At(RIdle) && trace[0] == old(trace[0])
      ensures w == CALM && old(Due(world, version)) && Unopposed(old(world).ledger) ==> Gone(world)
      ensures w == CALM && old(world.history[version].status.phase.Failed?) ==> world == Swept(old(world))
      ensures old(Early(world, version)) ==> world == old(world).(job := world.job, history := world.history)
      ensures old(Untouchable(world.history[version].status)) ==> world == old(world)
    {
      var job := world.history[version];
      trace := Extend(cfg, trace, OfRetention(RetentionReads(version)));
      trace := Extend(cfg, trace, OfRetention(RetentionObservesDeadline));
      match job.status.phase
      case Failed =>
        var _ := RemoveArtifact(job, w, note);
      case Completed =>
        var ok, dated := ObservedDeadline(job, w.deadline);
        if !ok { return; }
        trace := Extend(cfg, trace, OfRetention(RetentionReadsClock));
        if world.now < dated.status.retentionDeadline.value { return; }
        Expire(dated, w, note);
      case _ =>
    }

    /** The same pass where a run has come to: it continues the run, so whatever holds in every run holds
        after it. */
    method ReconcileIn(ghost run: seq<State>, version: nat, w: Weather, note: nat) returns (ghost longer: seq<State>)
      requires IsRun(cfg, run) && Last(run) == State(world, capture, RIdle, edit) && version < |world.history|
      modifies this
      ensures IsRun(cfg, longer) && run <= longer && Last(longer) == State(world, capture, RIdle, edit)
      ensures w == CALM && old(Due(world, version)) && Unopposed(old(world).ledger) ==> Gone(world)
    {
      trace := [State(world, capture, RIdle, edit)];
      Reconcile(version, w, note);
      RunContinues(cfg, run, trace);
      longer := run + trace[1..];
    }
  }

  function Redated(j: CaptureJob): Status
    requires j.status.completedAt.Some?
  {
    j.status.(retentionDeadline := Some(j.status.completedAt.value + j.retention))
  }

  predicate Unopposed(l: Ledger) { CanAck(l, ExpiryKey(Allow), Expiry(0)) && CanAck(l, ExpiryKey(Succeed), Expiry(0)) }

  /** The current version is completed and its retention has run out. */
  predicate Due(w: World, version: nat)
    requires version < |w.history|
  {
    && w.job == w.history[version] && w.job.status.phase.Completed?
    && w.job.status.completedAt.Some? && w.job.status.completedAt.value + w.job.retention <= w.now
  }

  /** A completed capture whose retention, as the version read has it, still runs. */
  predicate Early(w: World, version: nat)
    requires version < |w.history|
  {
    var j := w.history[version];
    j.status.phase.Completed? && j.status.completedAt.Some? && w.now < j.status.completedAt.value + j.retention
  }

  /** Nothing to keep and nothing to sweep. */
  predicate Untouchable(s: Status) {
    !s.phase.Failed? && (s.phase.Completed? ==> s.completedAt.None?)
  }

  function Swept(w: World): World { w.(deleteIssued := true, payload := None, manifest := None) }

  predicate Gone(w: World) {
    && w.job.status.phase.Expired? && w.payload.None? && w.manifest.None?
    && ExpiryKey(Allow) in w.ledger && ExpiryKey(Succeed) in w.ledger
  }
}
