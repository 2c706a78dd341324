/**
 Any number of workers evaluating any policies against any events.  Every API or ledger call is a step;
 reads may be stale, calls may fail with or without effect, a worker may stop anywhere, and captures may
 be deleted.  The ledger behaves as its commit protocol guarantees for commits that agree on content.
 */
module PolicyEngine {
  import opened Options
  import opened StableKeys
  import opened Dedup

  // ------------------------------------------------------------ audit records

  datatype Decision = Allowed | Succeeded | Failed

  /** One audited step on behalf of one policy for one deduplication key. */
  datatype Act = Act(decision: Decision, policy: string, key: string)

  function DecisionText(d: Decision): string {
    match d
    case Allowed => "allowed"
    case Succeeded => "succeeded"
    case Failed => "failed"
  }

  function StepText(d: Decision): string { if d.Allowed? then "request" else "outcome" }

  function ActStep(a: Act): string { StepText(a.decision) + [':'] + (DecisionText(a.decision) + [':'] + a.policy) }

  function KeyOf(a: Act): string { StableKeyForAutomatic("capturejob.policy_create", a.key, ActStep(a)) }

  lemma StepDecodable(a: Act, b: Act)
    requires ActStep(a) == ActStep(b)
    ensures a.decision == b.decision && a.policy == b.policy
  {
    CutAtFirst(StepText(a.decision), StepText(b.decision), DecisionText(a.decision) + [':'] + a.policy,
               DecisionText(b.decision) + [':'] + b.policy, ':');
    CutAtFirst(DecisionText(a.decision), DecisionText(b.decision), a.policy, b.policy, ':');
    assert DecisionText(a.decision)[0] == DecisionText(b.decision)[0];
  }

  /** The stable key tells the step, the decision, the policy and the deduplication key. */
  lemma ActDecodable(a: Act, b: Act)
    requires KeyOf(a) == KeyOf(b)
    ensures a == b
  {
    AutomaticKeysDecodable("capturejob.policy_create", a.key, ActStep(a), "capturejob.policy_create", b.key,
                           ActStep(b));
    StepDecodable(a, b);
  }

  datatype Content = Content(decision: string, message: string, initiatedBy: string, resource: string)

  /** Namespace and name of each policy by its UID; an object keeps both for life. */
  type Names = map<string, string>

  function Record(names: Names, a: Act, message: string): Content
    requires a.policy in names
  {
    Content(DecisionText(a.decision), message, names[a.policy], "trawl-policy-" + a.key)
  }

  // ------------------------------------------------------------ workers

  datatype Task = Task(policy: string, tap: string, flow: Option<Flow>, at: nat, cooldown: int)

  function KeyFor(t: Task): string { DeduplicationKey(t.tap, t.flow, t.at, t.cooldown) }

  datatype Job = Job(key: string, task: Task)

  datatype Stage = Getting | Limiting | Intending | Creating | Recording(decision: Decision, message: string) | Finished

  datatype Worker = Worker(task: Task, stage: Stage)

  datatype State = State(jobs: seq<Job>, ledger: map<string, Content>, workers: seq<Worker>)

  datatype CreateEffect = CreateWorks | CreateRefused(message: string) | CreateUnconfirmed(message: string)

  datatype Event =
    | Begin(task: Task)
    | Gets(worker: nat, found: bool)
    | Limits(worker: nat, limited: bool)
    | Commits(worker: nat, acked: bool, written: bool)
    | Creates(worker: nat, effect: CreateEffect)
    | Stops(worker: nat)
    | Deletes(job: nat)

  predicate Exists(s: State, key: string) { exists i :: 0 <= i < |s.jobs| && s.jobs[i].key == key }

  function ActOf(w: Worker): Act
    requires w.stage.Intending? || w.stage.Recording?
  {
    Act(if w.stage.Recording? then w.stage.decision else Allowed, w.task.policy, KeyFor(w.task))
  }

  function MessageOf(w: Worker): string { if w.stage.Recording? then w.stage.message else "" }

  predicate CanAck(ledger: map<string, Content>, key: string, c: Content) { key in ledger ==> ledger[key] == c }

  predicate Enabled(names: Names, s: State, e: Event) {
    match e
    case Begin(t) => t.policy in names
    case Gets(i, found) =>
      && i < |s.workers| && s.workers[i].stage.Getting?
      && (found ==> Exists(s, KeyFor(s.workers[i].task)))
    case Limits(i, _) => i < |s.workers| && s.workers[i].stage.Limiting?
    case Commits(i, acked, _) =>
      && i < |s.workers| && s.workers[i].task.policy in names
      && (s.workers[i].stage.Intending? || s.workers[i].stage.Recording?)
      && (acked ==> CanAck(s.ledger, KeyOf(ActOf(s.workers[i])),
                           Record(names, ActOf(s.workers[i]), MessageOf(s.workers[i]))))
    case Creates(i, _) => i < |s.workers| && s.workers[i].stage.Creating?
    case Stops(i) => i < |s.workers|
    case Deletes(j) => j < |s.jobs|
  }

  function To(s: State, i: nat, stage: Stage): seq<Worker>
    requires i < |s.workers|
  {
    s.workers[i := s.workers[i].(stage := stage)]
  }

  /** An intent that is not acknowledged ends the evaluation; an outcome record ends it either way. */
  function AfterCommit(w: Worker, acked: bool): Stage { if w.stage.Intending? && acked then Creating else Finished }

  function Filed(ledger: map<string, Content>, key: string, c: Content, written: bool): map<string, Content> {
    if written && key !in ledger then ledger[key := c] else ledger
  }

  function Create(s: State, i: nat, f: CreateEffect): State
    requires i < |s.workers|
  {
    var t := s.workers[i].task;
    var grown := s.jobs + [Job(KeyFor(t), t)];
    match f
    case CreateRefused(m) => s.(workers := To(s, i, Recording(Failed, m)))
    case CreateUnconfirmed(m) =>
      s.(jobs := if Exists(s, KeyFor(t)) then s.jobs else grown, workers := To(s, i, Recording(Failed, m)))
    case CreateWorks =>
      s.(jobs := if Exists(s, KeyFor(t)) then s.jobs else grown, workers := To(s, i, Recording(Succeeded, "")))
  }

  function Step(names: Names, s: State, e: Event): State
    requires Enabled(names, s, e)
  {
    match e
    case Begin(t) => s.(workers := s.workers + [Worker(t, Getting)])
    case Gets(i, found) => s.(workers := To(s, i, if found then Finished else Limiting))
    case Limits(i, limited) => s.(workers := To(s, i, if limited then Finished else Intending))
    case Commits(i, acked, written) =>
      var w := s.workers[i];
      s.(ledger := Filed(s.ledger, KeyOf(ActOf(w)), Record(names, ActOf(w), MessageOf(w)), acked || written),
         workers := To(s, i, AfterCommit(w, acked)))
    case Creates(i, f) => Create(s, i, f)
    case Stops(i) => s.(workers := To(s, i, Finished))
    case Deletes(j) => s.(jobs := s.jobs[..j] + s.jobs[j + 1..])
  }

  ghost predicate Follows(names: Names, s: State, t: State) {
    exists e :: Enabled(names, s, e) && t == Step(names, s, e)
  }

  ghost predicate IsRun(names: Names, run: seq<State>) {
    && |run| > 0 && run[0] == State([], map[], [])
    && forall i :: 0 < i < |run| ==> Follows(names, run[i - 1], run[i])
  }

  // ------------------------------------------------------------ invariant

  predicate Intended(ledger: map<string, Content>, policy: string, key: string) {
    KeyOf(Act(Allowed, policy, key)) in ledger
  }

  predicate Authorized(names: Names, ledger: map<string, Content>, w: Worker) {
    && w.task.policy in names
    && (w.stage.Creating? || w.stage.Recording? ==> Intended(ledger, w.task.policy, KeyFor(w.task)))
    && (w.stage.Recording? ==> !w.stage.decision.Allowed? && (w.stage.decision.Succeeded? ==> w.stage.message == ""))
  }

  predicate Provenanced(names: Names, ledger: map<string, Content>, j: Job) {
    j.task.policy in names && j.key == KeyFor(j.task) && Intended(ledger, j.task.policy, j.key)
  }

  predicate Distinct(jobs: seq<Job>) { forall i, j :: 0 <= i < j < |jobs| ==> jobs[i].key != jobs[j].key }

  /** Allowed and succeeded records are a function of their stable key. */
  ghost predicate Canonical(names: Names, ledger: map<string, Content>) {
    forall a: Act :: KeyOf(a) in ledger && a.policy in names && !a.decision.Failed? ==>
                       ledger[KeyOf(a)] == Record(names, a, "")
  }

  ghost predicate Inv(names: Names, s: State) {
    && Distinct(s.jobs) && Canonical(names, s.ledger)
    && (forall j :: 0 <= j < |s.jobs| ==> Provenanced(names, s.ledger, s.jobs[j]))
    && (forall i :: 0 <= i < |s.workers| ==> Authorized(names, s.ledger, s.workers[i]))
  }

  lemma FiledStaysCanonical(names: Names, ledger: map<string, Content>, w: Worker, written: bool)
    requires Canonical(names, ledger) && Authorized(names, ledger, w) && (w.stage.Intending? || w.stage.Recording?)
    ensures Canonical(names, Filed(ledger, KeyOf(ActOf(w)), Record(names, ActOf(w), MessageOf(w)), written))
  {
    var m := Filed(ledger, KeyOf(ActOf(w)), Record(names, ActOf(w), MessageOf(w)), written);
    forall a: Act | KeyOf(a) in m && a.policy in names && !a.decision.Failed?
      ensures m[KeyOf(a)] == Record(names, a, "")
    {
      if KeyOf(a) == KeyOf(ActOf(w)) { ActDecodable(a, ActOf(w)); }
    }
  }

  lemma CommitsKeep(names: Names, s: State, e: Event)
    requires Inv(names, s) && Enabled(names, s, e) && e.Commits?
    ensures Inv(names, Step(names, s, e))
  {
    var w, t := s.workers[e.worker], Step(names, s, e);
    assert Authorized(names, s.ledger, w);
    FiledStaysCanonical(names, s.ledger, w, e.acked || e.written);
    assert forall k :: k in s.ledger ==> k in t.ledger;
    forall j | 0 <= j < |t.jobs| ensures Provenanced(names, t.ledger, t.jobs[j]) {
      assert Provenanced(names, s.ledger, s.jobs[j]);
    }
    forall i | 0 <= i < |t.workers| ensures Authorized(names, t.ledger, t.workers[i]) {
      assert Authorized(names, s.ledger, s.workers[i]);
    }
  }

  lemma CreatesKeep(names: Names, s: State, e: Event)
    requires Inv(names, s) && Enabled(names, s, e) && e.Creates?
    ensures Inv(names, Step(names, s, e))
  {
    var w, t := s.workers[e.worker], Step(names, s, e);
    assert Authorized(names, s.ledger, w);
    forall j | 0 <= j < |t.jobs| ensures Provenanced(names, t.ledger, t.jobs[j]) {
      if j < |s.jobs| { assert Provenanced(names, s.ledger, s.jobs[j]); }
    }
    forall i | 0 <= i < |t.workers| ensures Authorized(names, t.ledger, t.workers[i]) {
      assert Authorized(names, s.ledger, s.workers[i]);
    }
  }

  lemma OthersKeep(names: Names, s: State, e: Event)
    requires Inv(names, s) && Enabled(names, s, e) && !e.Commits? && !e.Creates?
    ensures Inv(names, Step(names, s, e))
  {
    var t := Step(names, s, e);
    forall i | 0 <= i < |t.workers| ensures Authorized(names, t.ledger, t.workers[i]) {
      if i < |s.workers| { assert Authorized(names, s.ledger, s.workers[i]); }
    }
    forall j | 0 <= j < |t.jobs| ensures Provenanced(names, t.ledger, t.jobs[j]) {
      var k := if e.Deletes? && j >= e.job then j + 1 else j;
      assert Provenanced(names, s.ledger, s.jobs[k]);
    }
  }

  lemma FollowsKeeps(names: Names, s: State, t: State)
    requires Inv(names, s) && Follows(names, s, t)
    ensures Inv(names, t)
  {
    var e :| Enabled(names, s, e) && t == Step(names, s, e);
    if e.Commits? {
      CommitsKeep(names, s, e);
    } else if e.Creates? {
      CreatesKeep(names, s, e);
    } else {
      OthersKeep(names, s, e);
    }
  }

  lemma {:induction false} RunKeepsInv(names: Names, run: seq<State>, i: nat)
    requires IsRun(names, run) && i < |run|
    ensures Inv(names, run[i])
  {
    if i > 0 {
      RunKeepsInv(names, run, i - 1);
      FollowsKeeps(names, run[i - 1], run[i]);
    }
  }

  // ------------------------------------------------------------ results

  /** Every capture the engine created has a committed intent of its policy. */
  lemma EveryCaptureIsIntended(names: Names, run: seq<State>, i: nat, j: nat)
    requires IsRun(names, run) && i < |run| && j < |run[i].jobs|
    ensures var job := run[i].jobs[j]; var a := Act(Allowed, job.task.policy, KeyFor(job.task));
            job.task.policy in names && KeyOf(a) in run[i].ledger && run[i].ledger[KeyOf(a)] == Record(names, a, "")
  {
    RunKeepsInv(names, run, i);
    assert Provenanced(names, run[i].ledger, run[i].jobs[j]);
  }

  /** One tap, one conversation in either direction, one cooldown bucket: one capture. */
  lemma OneCapturePerWindow(names: Names, run: seq<State>, i: nat, j: nat, k: nat)
    requires IsRun(names, run) && i < |run| && j < |run[i].jobs| && k < |run[i].jobs|
    requires var a, b := run[i].jobs[j].task, run[i].jobs[k].task;
      && a.tap == b.tap && Bucket(a.at, a.cooldown) == Bucket(b.at, b.cooldown)
      && (a.flow == b.flow || (a.flow.Some? && b.flow == Some(Reversed(a.flow.value))))
    ensures j == k
  {
    RunKeepsInv(names, run, i);
    var s := run[i];
    assert Provenanced(names, s.ledger, s.jobs[j]) && Provenanced(names, s.ledger, s.jobs[k]);
    if s.jobs[j].task.flow.Some? { DirectionNeutral(s.jobs[j].task.flow.value); }
    assert s.jobs[j].key == s.jobs[k].key;
  }

  /** Workers racing on one event never conflict in the ledger over an intent or a success. */
  lemma RacersNeverConflict(names: Names, run: seq<State>, i: nat, w: nat)
    requires IsRun(names, run) && i < |run| && w < |run[i].workers|
    requires var g := run[i].workers[w].stage; g.Intending? || (g.Recording? && !g.decision.Failed?)
    ensures run[i].workers[w].task.policy in names
    ensures var me := run[i].workers[w]; CanAck(run[i].ledger, KeyOf(ActOf(me)),
                                                Record(names, ActOf(me), MessageOf(me)))
  {
    RunKeepsInv(names, run, i);
    assert Authorized(names, run[i].ledger, run[i].workers[w]);
  }
}
