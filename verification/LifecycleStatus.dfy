/** What the capture controller writes into status, in terms of what it saw. */
module LifecycleStatus {
  import opened Options
  import opened CaptureState
  import opened Lifecycle

  /** The Downloadable condition says what a download at that moment would be told, and why. */
  predicate SaysDownloadable(j: CaptureJob, now: nat) {
    && j.status.downloadable.Some?
    && var c, d, over := j.status.downloadable.value, DecideDownload(j, now), IsTerminal(j.status.phase);
       && c.generation == j.generation && !c.status.Unknown?
       && (c.status.True? <==> d.Allowed?)
       && (c.reason.Downloadable? <==> d.Allowed?)
       && (c.reason.DownloadExpiredReason? <==> d.DownloadExpired?)
       && (c.reason.NotDownloadable? <==> d.NotReady? && over)
       && (c.reason.StillPending? <==> d.NotReady? && !over)
  }

  /** The ArtifactVerified condition says what storage showed, and is left alone while it showed nothing. */
  predicate SaysVerified(was: Option<Condition>, c: Option<Condition>, failed: bool, a: ArtifactState,
                         generation: nat) {
    var news := Decisive(a) || failed;
    && (!news ==> c == was)
    && (news ==>
          && c.Some? && c.value.generation == generation
          && (c.value.status.True? <==> a.ArtifactVerifiedState?)
          && (c.value.status.Unknown? <==> a.ArtifactUnavailable?)
          && (c.value.reason.Verified? <==> a.ArtifactVerifiedState?)
          && (c.value.reason.ChecksumMismatch? <==> a.ArtifactMismatchState?)
          && (c.value.reason.StorageFailure? <==> a.ArtifactUnavailable? || a.ArtifactPresent?)
          && (c.value.reason.Missing? <==> a.ArtifactAbsent? || a.ArtifactUnknown?))
  }

  /** What the reporter wrote, and what a completion wrote. */
  predicate SameReport(a: Status, b: Status) {
    && a.startedAt == b.startedAt && a.captureEndedAt == b.captureEndedAt && a.runnerResult == b.runnerResult
    && a.completedAt == b.completedAt && a.packetCount == b.packetCount && a.sizeBytes == b.sizeBytes
    && a.sha256 == b.sha256 && a.artifact == b.artifact && a.retentionDeadline == b.retentionDeadline
  }

  /** The status after a pass over an unfinished capture: the phase decided, the spec observed, both conditions,
      and the failure counted up from an earlier one.  A cleanup that is owed is remembered.  Without a
      completion the report stays as it was. */
  lemma AppliedSays(j: CaptureJob, obs: Observation, hasJob: bool, now: nat)
    requires Gathered(j, obs) && Evaluate(j, obs).Ok?
    ensures var o := Evaluate(j, obs).value; var s := ApplyOutcome(j, obs, o, hasJob, now);
      && s.phase == o.phase && s.observedGeneration == j.generation
      && (s.runnerJobRef <==> j.status.runnerJobRef || hasJob)
      && SaysDownloadable(j.(status := s), now)
      && SaysVerified(j.status.artifactVerified, s.artifactVerified, o.phase.Failed?, obs.artifact, j.generation)
      && (o.phase.Failed? ==>
            && s.failure.Some? && o.failure.Some?
            && s.failure.value == o.failure.value.(attempts := s.failure.value.attempts)
            && s.failure.value.attempts == if j.status.failure.Some? then j.status.failure.value.attempts + 1 else 1)
      && (o.action.ActionCleanupArtifact? ==> CleanupPending(j.(status := s)))
      && (!o.phase.Completed? ==> SameReport(j.status, s))
      && (!o.phase.Completed? && !o.phase.Failed? ==> s.failure == j.status.failure)
  {
    EvaluateDecides(j, obs);
  }

  /** Observing an edit moves the deadline to where the new retention puts it, carries the verification over to
      the new generation, and says whether the capture can still be downloaded. */
  lemma ReobservedSays(j: CaptureJob, now: nat)
    requires j.status.completedAt.Some?
    ensures var s := ReobserveRetention(j, now);
      && SaysDownloadable(j.(status := s), now)
      && s.observedGeneration == j.generation && s.phase == j.status.phase
      && s.retentionDeadline == Some(j.status.completedAt.value + j.retention)
      && SameReport(j.status.(retentionDeadline := s.retentionDeadline), s) && s.failure == j.status.failure
      && (s.artifactVerified.Some? <==> j.status.artifactVerified.Some?)
      && (s.artifactVerified.Some? ==>
            && s.artifactVerified.value.status == j.status.artifactVerified.value.status
            && s.artifactVerified.value.reason == j.status.artifactVerified.value.reason
            && s.artifactVerified.value.generation >= j.generation)
  {
  }
}
