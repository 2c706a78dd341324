/** Stretches of a run of the lifecycle, and how single calls turn out. */
module LifecyclePaths {
  import opened CaptureState
  import opened Lifecycle

  /** How a call to the API server, the ledger or the store turns out. */
  datatype Effect = Works | FailsBefore | FailsAfter | Swallowed

  predicate Lands(f: Effect) { f.Works? || f.FailsAfter? }

  predicate Reports(f: Effect) { f.Works? || f.Swallowed? }

  /** The world after an attempt to write the status of the version that was read. */
  function Noted(w: World, job: CaptureJob, next: Status, f: Effect): World {
    if Lands(f) && job.version == w.job.version then Write(w, Bump(job, next)) else w
  }

  ghost predicate IsPath(cfg: Config, path: seq<State>) {
    |path| > 0 && forall i :: 0 < i < |path| ==> Follows(cfg, path[i - 1], path[i])
  }

  ghost function Last(path: seq<State>): State
    requires |path| > 0
  {
    path[|path| - 1]
  }

  lemma Extend(cfg: Config, path: seq<State>, e: Event) returns (longer: seq<State>)
    requires IsPath(cfg, path) && Enabled(cfg, Last(path), e)
    ensures IsPath(cfg, longer) && longer[0] == path[0] && Last(longer) == Step(cfg, Last(path), e)
    ensures |longer| == |path| + 1 && longer[|path| - 1] == Last(path)
  {
    longer := path + [Step(cfg, Last(path), e)];
    assert Follows(cfg, Last(path), longer[|path|]);
    forall i | 0 < i < |longer| ensures Follows(cfg, longer[i - 1], longer[i]) {
      if i < |path| { assert Follows(cfg, path[i - 1], path[i]); }
    }
  }

  /** A path that starts where a run ends continues it. */
  lemma RunContinues(cfg: Config, run: seq<State>, path: seq<State>)
    requires IsRun(cfg, run) && IsPath(cfg, path) && path[0] == Last(run)
    ensures IsRun(cfg, run + path[1..]) && Last(run + path[1..]) == Last(path)
  {
    var longer := run + path[1..];
    forall i | 0 < i < |longer| ensures Follows(cfg, longer[i - 1], longer[i]) {
      if i < |run| {
        assert Follows(cfg, run[i - 1], run[i]);
      } else {
        assert Follows(cfg, path[i - |run|], path[i - |run| + 1]);
      }
    }
  }
}
