/**
 One evaluation of a policy against an event, call by call: look for the capture, check the limit, record
 the intent, create, record the outcome.  Each evaluation is proved to be a stretch of a run of the engine.
 */
module EngineEvaluation {
  import opened Options
  import opened StableKeys
  import opened PolicyEngine

  datatype Outcome = Created | Duplicate | RateLimited | Failed

  datatype Lookup = LookupWorks | LookupFails | LookupIsStale

  datatype Check = Within | AtLimit | CheckFails

  datatype Effect = Works | FailsBefore | FailsAfter

  /** How each call turns out, and what a failure to create says. */
  datatype Weather = Weather(get: Lookup, limit: Check, intent: Effect, create: CreateEffect, outcome: Effect)

  ghost predicate IsPath(names: Names, path: seq<State>) {
    |path| > 0 && forall i :: 0 < i < |path| ==> Follows(names, path[i - 1], path[i])
  }

  lemma Extend(names: Names, path: seq<State>, e: Event) returns (longer: seq<State>)
    requires IsPath(names, path) && Enabled(names, path[|path| - 1], e)
    ensures IsPath(names, longer) && longer[0] == path[0]
    ensures longer[|longer| - 1] == Step(names, path[|path| - 1], e)
  {
    longer := path + [Step(names, path[|path| - 1], e)];
    assert Follows(names, path[|path| - 1], longer[|path|]);
    forall i | 0 < i < |longer| ensures Follows(names, longer[i - 1], longer[i]) {
      if i < |path| { assert Follows(names, path[i - 1], path[i]); }
    }
  }

  /** The record an act leaves, spelled out. */
  function RecordOf(names: Names, t: Task, decision: string, message: string): Content
    requires t.policy in names
  {
    Content(decision, message, names[t.policy], "trawl-policy-" + KeyFor(t))
  }

  /** The stable key of an act: the request or the outcome, what was decided, and for which policy. */
  function ActKey(t: Task, step: string): string {
    StableKeyForAutomatic("capturejob.policy_create", KeyFor(t), step + t.policy)
  }

  predicate Acked(ledger: map<string, Content>, key: string, c: Content, f: Effect) {
    f.Works? && (key in ledger ==> ledger[key] == c)
  }

  /** The ledger after an attempt to commit. */
  function Committed(ledger: map<string, Content>, key: string, c: Content, f: Effect): map<string, Content> {
    if key in ledger || f.FailsBefore? then ledger else ledger[key := c]
  }

  lemma StepSpelled(policy: string, key: string)
    ensures ActStep(Act(Allowed, policy, key)) == "request:allowed:" + policy
    ensures ActStep(Act(Succeeded, policy, key)) == "outcome:succeeded:" + policy
    ensures ActStep(Act(Decision.Failed, policy, key)) == "outcome:failed:" + policy
  {
    assert "request" + [':'] + ("allowed" + [':'] + policy) == "request:allowed:" + policy;
    assert "outcome" + [':'] + ("succeeded" + [':'] + policy) == "outcome:succeeded:" + policy;
    assert "outcome" + [':'] + ("failed" + [':'] + policy) == "outcome:failed:" + policy;
  }

  class Evaluator {
    const names: Names
    var s: State
    ghost var trace: seq<State>

    ghost predicate Valid()
      reads this
    {
      IsPath(names, trace) && trace[|trace| - 1] == s
    }

    constructor (names: Names, s: State)
      ensures this.names == names && this.s == s && Valid() && trace == [s]
    {
      this.names, this.s, trace := names, s, [s];
    }

    method Do(e: Event)
      requires Valid() && Enabled(names, s, e)
      modifies this
      ensures Valid() && trace[0] == old(trace[0]) && s == Step(names, old(s), e)
    {
      s := Step(names, s, e);
      trace := Extend(names, trace, e);
    }

    /** Commits the record of the step the worker is at. */
    method Commit(i: nat, f: Effect) returns (ok: bool)
      requires Valid() && i < |s.workers| && s.workers[i].task.policy in names
      requires s.workers[i].stage.Intending? || s.workers[i].stage.Recording?
      modifies this
      ensures Valid() && trace[0] == old(trace[0])
      ensures var w := old(s).workers[i]; var c := Record(names, ActOf(w), MessageOf(w));
        && (ok <==> Acked(old(s).ledger, KeyOf(ActOf(w)), c, f))
        && s == old(s).(ledger := Committed(old(s).ledger, KeyOf(ActOf(w)), c, f),
                        workers := To(old(s), i, AfterCommit(w, ok)))
    {
      var w := s.workers[i];
      ok := Acked(s.ledger, KeyOf(ActOf(w)), Record(names, ActOf(w), MessageOf(w)), f);
      Do(Commits(i, ok, f.FailsAfter? || f.Works?));
    }

    /** Creates the capture, or learns that it exists, or fails; then records which. */
    method CreateAndRecord(i: nat, w: Weather) returns (r: Outcome)
      requires Valid() && i < |s.workers| && s.workers[i].task.policy in names && s.workers[i].stage.Creating?
      modifies this
      ensures Valid() && trace[0] == old(trace[0])
      ensures var t := old(s).workers[i].task; var exists_ := Exists(old(s), KeyFor(t));
        && (r.Created? <==> w.create.CreateWorks? && !exists_)
        && (r.Duplicate? <==> w.create.CreateWorks? && exists_)
        && (r.Failed? <==> !w.create.CreateWorks?)
        && s.jobs == (if exists_ || w.create.CreateRefused? then old(s).jobs else old(s).jobs + [Job(KeyFor(t), t)])
        && s.ledger == (if w.create.CreateWorks?
                        then Committed(old(s).ledger, ActKey(t, "outcome:succeeded:"),
                                       RecordOf(names, t, "succeeded", ""), w.outcome)
                        else Committed(old(s).ledger, ActKey(t, "outcome:failed:"),
                                       RecordOf(names, t, "failed", w.create.message), w.outcome))
      ensures s.workers == To(old(s), i, Finished)
    {
      var t := s.workers[i].task;
      StepSpelled(t.policy, KeyFor(t));
      var existed := Exists(s, KeyFor(t));
      Do(Creates(i, w.create));
      var _ := Commit(i, w.outcome);
      return if !w.create.CreateWorks? then Outcome.Failed else if existed then Duplicate else Created;
    }

    /** Intent before work: without an acknowledged intent nothing is created. */
    method Request(i: nat, w: Weather) returns (r: Outcome)
      requires Valid() && i < |s.workers| && s.workers[i].task.policy in names && s.workers[i].stage.Intending?
      modifies this
      ensures Valid() && trace[0] == old(trace[0])
      ensures Requested(names, old(s).jobs, old(s).ledger, old(s).workers[i].task, w, r, s.jobs, s.ledger)
      ensures s.workers == To(old(s), i, Finished)
    {
      StepSpelled(s.workers[i].task.policy, KeyFor(s.workers[i].task));
      var ok := Commit(i, w.intent);
      if !ok { return Outcome.Failed; }
      r := CreateAndRecord(i, w);
    }

    /** The whole evaluation.  A capture that is found, a limit that is reached and an intent that is not
        acknowledged each end it with nothing created. */
    method Evaluate(t: Task, w: Weather) returns (r: Outcome)
      requires Valid() && t.policy in names
      modifies this
      ensures Valid() && trace[0] == old(trace[0])
      ensures Concluded(names, old(s), t, w, r, s)
    {
      var i := |s.workers|;
      Do(Begin(t));
      if w.get.LookupFails? {
        Do(Stops(i));
        return Outcome.Failed;
      }
      var found := w.get.LookupWorks? && Exists(s, KeyFor(t));
      Do(Gets(i, found));
      if found { return Duplicate; }
      if w.limit.CheckFails? {
        Do(Stops(i));
        return Outcome.Failed;
      }
      Do(Limits(i, w.limit.AtLimit?));
      if w.limit.AtLimit? { return RateLimited; }
      r := Request(i, w);
    }
  }

  predicate Listed(jobs: seq<Job>, key: string) { exists i :: 0 <= i < |jobs| && jobs[i].key == key }

  /** What asking for a capture did to captures and ledger, and what it reported. */
  predicate Requested(names: Names, jobs: seq<Job>, ledger: map<string, Content>, t: Task, w: Weather, r: Outcome,
                      after: seq<Job>, filed: map<string, Content>)
    requires t.policy in names
  {
    var key, present := KeyFor(t), Listed(jobs, KeyFor(t));
    var intent := ActKey(t, "request:allowed:");
    var acked := Acked(ledger, intent, RecordOf(names, t, "allowed", ""), w.intent);
    var intended := Committed(ledger, intent, RecordOf(names, t, "allowed", ""), w.intent);
    && !r.RateLimited?
    && (r.Duplicate? <==> acked && w.create.CreateWorks? && present)
    && (r.Created? <==> acked && w.create.CreateWorks? && !present)
    && after == (if acked && !present && !w.create.CreateRefused? then jobs + [Job(key, t)] else jobs)
    && filed == (if !acked then intended
                 else if w.create.CreateWorks?
                 then Committed(intended, ActKey(t, "outcome:succeeded:"),
                                RecordOf(names, t, "succeeded", ""), w.outcome)
                 else Committed(intended, ActKey(t, "outcome:failed:"),
                                RecordOf(names, t, "failed", w.create.message), w.outcome))
  }

  /** What an evaluation that took s to u did, and what it reported. */
  predicate Concluded(names: Names, s: State, t: Task, w: Weather, r: Outcome, u: State)
    requires t.policy in names
  {
    var found := w.get.LookupWorks? && Listed(s.jobs, KeyFor(t));
    var looked := !w.get.LookupFails? && !found;
    && u.workers == s.workers + [Worker(t, Finished)]
    && (r.RateLimited? <==> looked && w.limit.AtLimit?)
    && (found ==> r.Duplicate?)
    && (looked && w.limit.Within? ==> Requested(names, s.jobs, s.ledger, t, w, r, u.jobs, u.ledger))
    && (!looked || !w.limit.Within? ==> u.jobs == s.jobs && u.ledger == s.ledger && !r.Created?)
    && (w.get.LookupFails? || (looked && w.limit.CheckFails?) ==> r.Failed?)
  }
}
