/**
 Committing to the audit ledger: two objects per stable key, a claim and the record it points at.

 Object keys are the tuples their spelling encodes, the hash of the stable key being taken as
 injective.  Each store call is one step; a call may fail before or after taking effect, and an
 unconditional write may report success without effect.  The conditional write is linearizable.
 */
module Ledger {
  import opened Options
  import opened StableKeys

  datatype Key = IndexKey(stable: string) | RecordKey(at: nat, stable: string)

  datatype Action =
    | NetworkTapCreate | NetworkTapUpdate | NetworkTapDelete
    | CapturePolicyCreate | CapturePolicyUpdate | CapturePolicyDelete | CapturePolicyArm | CapturePolicyDisarm
    | CaptureJobManualCreate | CaptureJobPolicyCreate | CaptureJobTransition
    | ArtifactDownload | RetentionChange | ArtifactExpire
    | PortMirrorCreate | PortMirrorUpdate | PortMirrorDelete | PortMirrorConfigure | PortMirrorRevert
    | UnknownAction(text: string)

  datatype Decision = Allowed | Denied | Succeeded | Failed | UnknownDecision(text: string)

  /** Everything a record says apart from its key, its timestamps and its place in the ledger. */
  datatype Content = Content(action: Action, decision: Decision, detail: string)

  datatype Record = Record(stable: string, content: Content, recordedAt: nat, committedAt: nat, ledgerKey: Key)

  datatype Object = Pointer(key: Key) | Body(record: Record)

  type Store = map<Key, Object>

  datatype Request = Request(stable: string, content: Content, recordedAt: Option<nat>)

  datatype CommitResult =
    | Success(key: Key, committedAt: nat)
    | Retry(key: Key, committedAt: nat)
    | Unavailable
    | Conflict

  /** The contract's actions and decisions; a key must hold more than white space. */
  predicate Valid(stable: string, c: Content) {
    !c.action.UnknownAction? && !c.decision.UnknownDecision? && exists i :: 0 <= i < |stable| && !Space(stable[i])
  }

  function Prepared(q: Request, now: nat): Record {
    var at := if q.recordedAt.Some? then q.recordedAt.value else now;
    Record(q.stable, q.content, at, now, RecordKey(at, q.stable))
  }

  /** Equal once the timestamps and the ledger key are blanked. */
  predicate SameAction(a: Record, b: Record) {
    a.(recordedAt := 0, committedAt := 0, ledgerKey := IndexKey("")) == b.(recordedAt := 0, committedAt := 0,
                                                                           ledgerKey := IndexKey(""))
  }

  // ------------------------------------------------------------ one commit, call by call

  datatype Fault = Works | FailsBefore | FailsAfter | Swallowed

  predicate Reported(f: Fault) { f.FailsBefore? || f.FailsAfter? }

  datatype Stage =
    | Claiming
    | Writing(record: Record)
    | Verifying(record: Record)
    | ReadingClaim
    | ReadingRecord(key: Key)
    | Done(result: CommitResult)
    | Stopped

  predicate Over(s: Stage) { s.Done? || s.Stopped? }

  function Claim(me: Record, objects: Store, f: Fault): (Stage, Store) {
    var k := IndexKey(me.stable);
    if f.FailsBefore? then (Done(Unavailable), objects)
    else if k in objects then (if f.FailsAfter? then Done(Unavailable) else ReadingClaim, objects)
    else (if f.FailsAfter? then Done(Unavailable) else Writing(me), objects[k := Pointer(me.ledgerKey)])
  }

  function WriteBody(r: Record, objects: Store, f: Fault): (Stage, Store) {
    (if Reported(f) then Done(Unavailable) else Verifying(r),
     if f.FailsBefore? || f.Swallowed? then objects else objects[r.ledgerKey := Body(r)])
  }

  function Verify(r: Record, objects: Store, f: Fault): Stage {
    Done(if Reported(f) || r.ledgerKey !in objects then Unavailable else Success(r.ledgerKey, r.committedAt))
  }

  function FollowClaim(me: Record, objects: Store, f: Fault): Stage {
    var k := IndexKey(me.stable);
    if Reported(f) || k !in objects || !objects[k].Pointer? then Done(Unavailable) else ReadingRecord(objects[k].key)
  }

  function Compare(me: Record, key: Key, objects: Store, f: Fault): Stage {
    if Reported(f) then Done(Unavailable)
    else if key !in objects then Writing(me.(ledgerKey := key))
    else if objects[key].Body? && SameAction(objects[key].record, me)
    then Done(Retry(key, objects[key].record.committedAt))
    else Done(Conflict)
  }

  function Advance(me: Record, stage: Stage, objects: Store, f: Fault): (Stage, Store) {
    match stage
    case Claiming => Claim(me, objects, f)
    case Writing(r) => WriteBody(r, objects, f)
    case Verifying(r) => (Verify(r, objects, f), objects)
    case ReadingClaim => (FollowClaim(me, objects, f), objects)
    case ReadingRecord(k) => (Compare(me, k, objects, f), objects)
    case Done(_) => (stage, objects)
    case Stopped => (stage, objects)
  }

  // ------------------------------------------------------------ any number of commits

  /** A commit of `request`, begun at `now`. */
  datatype Process = Process(request: Request, now: nat, stage: Stage) {
    function Draft(): Record { Prepared(request, now) }
  }

  datatype System = System(objects: Store, procs: seq<Process>)

  datatype Event = Start(request: Request, now: nat) | Move(proc: nat, fault: Fault) | Stop(proc: nat)

  predicate Enabled(s: System, e: Event) { e.Start? || e.proc < |s.procs| }

  function Begin(q: Request, now: nat): Process {
    Process(q, now, if Valid(q.stable, q.content) then Claiming else Done(Conflict))
  }

  function Step(s: System, e: Event): System
    requires Enabled(s, e)
  {
    match e
    case Start(q, now) => s.(procs := s.procs + [Begin(q, now)])
    case Move(i, f) =>
      var p := s.procs[i];
      var next := Advance(p.Draft(), p.stage, s.objects, f);
      System(next.1, s.procs[i := p.(stage := next.0)])
    case Stop(i) =>
      if s.procs[i].stage.Done? then s else s.(procs := s.procs[i := s.procs[i].(stage := Stopped)])
  }

  ghost predicate Follows(s: System, t: System) { exists e :: Enabled(s, e) && t == Step(s, e) }

  ghost predicate IsRun(run: seq<System>) {
    |run| > 0 && run[0] == System(map[], []) && forall i :: 0 < i < |run| ==> Follows(run[i - 1], run[i])
  }

  // ------------------------------------------------------------ what every step keeps

  predicate Claimed(objects: Store, stable: string, key: Key) {
    key.RecordKey? && key.stable == stable && IndexKey(stable) in objects && objects[IndexKey(stable)] == Pointer(key)
  }

  predicate Placed(objects: Store, r: Record) { Claimed(objects, r.stable, r.ledgerKey) }

  /** A claim points at a record key of its own stable key; a record lies where its claim points. */
  predicate WellKept(objects: Store, k: Key)
    requires k in objects
  {
    match k
    case IndexKey(stable) => objects[k].Pointer? && Claimed(objects, stable, objects[k].key)
    case RecordKey(_, stable) =>
      && objects[k].Body? && objects[k].record.stable == stable && objects[k].record.ledgerKey == k
      && Valid(stable, objects[k].record.content) && Claimed(objects, stable, k)
  }

  predicate Storage(objects: Store) { forall k :: k in objects ==> WellKept(objects, k) }

  /** What the record of a request begun at `now` says. */
  predicate Written(r: Record, q: Request, now: nat) {
    && r.stable == q.stable && r.content == q.content && r.committedAt == now
    && r.recordedAt == if q.recordedAt.Some? then q.recordedAt.value else now
  }

  predicate Writes(p: Process, objects: Store, r: Record) {
    Placed(objects, r) && Written(r, p.request, p.now)
  }

  predicate Coherent(p: Process, objects: Store) {
    && p.Draft().ledgerKey.RecordKey? && p.Draft().ledgerKey.stable == p.request.stable
    && (p.stage != Done(Conflict) ==> Valid(p.request.stable, p.request.content))
    && match p.stage
       case Writing(r) => Writes(p, objects, r)
       case Verifying(r) => Writes(p, objects, r)
       case ReadingClaim => IndexKey(p.request.stable) in objects
       case ReadingRecord(k) => Claimed(objects, p.request.stable, k)
       case Done(Success(k, _)) => Claimed(objects, p.request.stable, k) && k in objects
       case Done(Retry(k, _)) => Claimed(objects, p.request.stable, k) && k in objects
       case _ => true
  }

  predicate Inv(s: System) {
    Storage(s.objects) && forall i :: 0 <= i < |s.procs| ==> Coherent(s.procs[i], s.objects)
  }

  /** Claims stay as they are and no object disappears. */
  predicate Keeps(a: Store, b: Store) {
    forall k :: k in a ==> k in b && (k.IndexKey? ==> b[k] == a[k])
  }

  lemma Cause(s: System, t: System) returns (e: Event)
    requires Follows(s, t)
    ensures Enabled(s, e) && t == Step(s, e)
  {
    e :| Enabled(s, e) && t == Step(s, e);
  }

  lemma CoherentOnward(p: Process, a: Store, b: Store)
    requires Coherent(p, a) && Keeps(a, b)
    ensures Coherent(p, b)
  {
  }

  lemma ClaimKeeps(p: Process, objects: Store, f: Fault)
    requires Coherent(p, objects) && Storage(objects) && p.stage.Claiming?
    ensures var next := Claim(p.Draft(), objects, f);
            Storage(next.1) && Keeps(objects, next.1) && Coherent(p.(stage := next.0), next.1)
  {
    var b := Claim(p.Draft(), objects, f).1;
    forall k | k in b ensures WellKept(b, k) {
      if k in objects { assert WellKept(objects, k); }
    }
  }

  lemma WriteKeeps(p: Process, objects: Store, f: Fault)
    requires Coherent(p, objects) && Storage(objects) && p.stage.Writing?
    ensures var next := WriteBody(p.stage.record, objects, f);
            Storage(next.1) && Keeps(objects, next.1) && Coherent(p.(stage := next.0), next.1)
  {
    var b := WriteBody(p.stage.record, objects, f).1;
    forall k | k in b ensures WellKept(b, k) {
      if k in objects { assert WellKept(objects, k); }
    }
  }

  lemma AdvanceKeeps(p: Process, objects: Store, f: Fault)
    requires Coherent(p, objects) && Storage(objects)
    ensures var next := Advance(p.Draft(), p.stage, objects, f);
            Storage(next.1) && Keeps(objects, next.1) && Coherent(p.(stage := next.0), next.1)
  {
    match p.stage
    case Claiming => ClaimKeeps(p, objects, f);
    case Writing(_) => WriteKeeps(p, objects, f);
    case ReadingClaim => assert WellKept(objects, IndexKey(p.request.stable));
    case _ =>
  }

  lemma StepKeeps(s: System, e: Event)
    requires Inv(s) && Enabled(s, e)
    ensures Inv(Step(s, e)) && Keeps(s.objects, Step(s, e).objects) && |s.procs| <= |Step(s, e).procs|
  {
    if e.Move? {
      var p := s.procs[e.proc];
      AdvanceKeeps(p, s.objects, e.fault);
      var next := Advance(p.Draft(), p.stage, s.objects, e.fault);
      forall i | 0 <= i < |s.procs| ensures Coherent(s.procs[i], next.1) {
        CoherentOnward(s.procs[i], s.objects, next.1);
      }
    }
  }

  lemma KeepsOn(a: Store, b: Store, c: Store)
    requires Keeps(a, b) && Keeps(b, c)
    ensures Keeps(a, c)
  {
  }

  lemma FollowsKeeps(s: System, t: System)
    requires Inv(s) && Follows(s, t)
    ensures Inv(t) && Keeps(s.objects, t.objects)
  {
    var e := Cause(s, t);
    StepKeeps(s, e);
  }

  lemma {:induction false} RunKeepsInv(run: seq<System>, i: nat)
    requires IsRun(run) && i < |run|
    ensures Inv(run[i])
  {
    if i > 0 {
      RunKeepsInv(run, i - 1);
      FollowsKeeps(run[i - 1], run[i]);
    }
  }

  lemma RunStepKeeps(run: seq<System>, i: nat)
    requires IsRun(run) && 0 < i < |run|
    ensures Keeps(run[i - 1].objects, run[i].objects)
  {
    RunKeepsInv(run, i - 1);
    FollowsKeeps(run[i - 1], run[i]);
  }

  lemma {:induction false} RunKeepsObjects(run: seq<System>, i: nat, j: nat)
    requires IsRun(run) && i <= j < |run|
    ensures Keeps(run[i].objects, run[j].objects)
    decreases j
  {
    if i < j {
      RunKeepsObjects(run, i, j - 1);
      RunStepKeeps(run, j);
      KeepsOn(run[i].objects, run[j - 1].objects, run[j].objects);
    }
  }

  // ------------------------------------------------------------ overlapping commits

  predicate Acked(s: Stage) { s.Done? && (s.result.Success? || s.result.Retry?) }

  /** A claim never changes. */
  lemma ClaimsNeverChange(run: seq<System>, i: nat, j: nat, stable: string)
    requires IsRun(run) && i <= j < |run| && IndexKey(stable) in run[i].objects
    ensures IndexKey(stable) in run[j].objects && run[j].objects[IndexKey(stable)] == run[i].objects[IndexKey(stable)]
  {
    RunKeepsObjects(run, i, j);
  }

  /** There is never a second record of a stable key, and a record names its own key. */
  lemma OneRecordPerStableKey(run: seq<System>, i: nat, a: Key, b: Key)
    requires IsRun(run) && i < |run| && a in run[i].objects && b in run[i].objects
    requires a.RecordKey? && b.RecordKey? && a.stable == b.stable
    ensures a == b && run[i].objects[a].Body? && run[i].objects[a].record.ledgerKey == a
  {
    RunKeepsInv(run, i);
    assert WellKept(run[i].objects, a) && WellKept(run[i].objects, b);
  }

  /** All acknowledged commits of a stable key, whenever they finish, return one ledger key, which
      holds a record from then on. */
  lemma AcknowledgementsAgree(run: seq<System>, i: nat, j: nat, p: nat, q: nat)
    requires IsRun(run) && i <= j < |run| && p < |run[i].procs| && q < |run[j].procs|
    requires Acked(run[i].procs[p].stage) && Acked(run[j].procs[q].stage)
    requires run[i].procs[p].request.stable == run[j].procs[q].request.stable
    ensures run[i].procs[p].stage.result.key == run[j].procs[q].stage.result.key
    ensures run[i].procs[p].stage.result.key in run[j].objects
  {
    RunKeepsInv(run, i);
    RunKeepsInv(run, j);
    RunKeepsObjects(run, i, j);
    assert Coherent(run[i].procs[p], run[i].objects) && Coherent(run[j].procs[q], run[j].objects);
  }

  // ------------------------------------------------------------ one action per key

  predicate Sole(s: System, stable: string, c: Content) {
    forall i :: 0 <= i < |s.procs| && s.procs[i].request.stable == stable ==> s.procs[i].request.content == c
  }

  predicate Agrees(objects: Store, stable: string, c: Content) {
    forall k :: k in objects && k.RecordKey? && k.stable == stable ==>
                  objects[k].Body? && objects[k].record.content == c
  }

  predicate Unopposed(s: System, stable: string) {
    forall i :: 0 <= i < |s.procs| && s.procs[i].request.stable == stable ==> s.procs[i].stage != Done(Conflict)
  }

  lemma StepAgrees(s: System, e: Event, stable: string, c: Content)
    requires Inv(s) && Enabled(s, e) && Valid(stable, c)
    requires Sole(Step(s, e), stable, c)
    requires Agrees(s.objects, stable, c) && Unopposed(s, stable)
    ensures Agrees(Step(s, e).objects, stable, c) && Unopposed(Step(s, e), stable)
  {
    var t := Step(s, e);
    match e
    case Start(q, now) =>
      assert t.procs[|s.procs|] == Begin(q, now);
    case Stop(_) =>
    case Move(m, f) =>
      var p := s.procs[m];
      assert t.procs[m].request == p.request && Coherent(p, s.objects);
      if p.stage.ReadingRecord? && p.stage.key in s.objects {
        assert WellKept(s.objects, p.stage.key);
      }
  }

  lemma SoleBefore(s: System, e: Event, stable: string, c: Content)
    requires Enabled(s, e) && Sole(Step(s, e), stable, c)
    ensures Sole(s, stable, c)
  {
    forall i | 0 <= i < |s.procs| && s.procs[i].request.stable == stable ensures s.procs[i].request.content == c {
      assert Step(s, e).procs[i].request == s.procs[i].request;
    }
  }

  /** If every commit of a stable key carries the same action, none conflicts and the record holds that action. */
  lemma {:induction false} SameActionNeverConflicts(run: seq<System>, i: nat, stable: string, c: Content)
    requires IsRun(run) && i < |run| && Valid(stable, c) && Sole(run[i], stable, c)
    ensures Agrees(run[i].objects, stable, c) && Unopposed(run[i], stable)
  {
    if i > 0 {
      var e := Cause(run[i - 1], run[i]);
      SoleBefore(run[i - 1], e, stable, c);
      SameActionNeverConflicts(run, i - 1, stable, c);
      RunKeepsInv(run, i - 1);
      StepAgrees(run[i - 1], e, stable, c);
    }
  }
}
