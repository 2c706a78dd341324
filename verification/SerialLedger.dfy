/**
 Commits of one stable key that do not overlap in time.  Each may still stop after any store call.
 */
module SerialLedger {
  import opened Options
  import opened Ledger

  /** No two unfinished commits carry the same stable key. */
  predicate Alone(s: System) {
    forall i, j :: 0 <= i < j < |s.procs| && s.procs[i].request.stable == s.procs[j].request.stable
      ==> Over(s.procs[i].stage) || Over(s.procs[j].stage)
  }

  ghost predicate IsSerialRun(run: seq<System>) { IsRun(run) && forall i :: 0 <= i < |run| ==> Alone(run[i]) }

  /** The record holds what the request asked for. */
  predicate Stored(objects: Store, key: Key, q: Request) {
    && key in objects && objects[key].Body?
    && objects[key].record.stable == q.stable && objects[key].record.content == q.content
  }

  predicate Undisturbed(p: Process, objects: Store) {
    match p.stage
    case Writing(r) => r.ledgerKey !in objects
    case Verifying(r) => r.ledgerKey in objects ==> objects[r.ledgerKey] == Body(r)
    case Done(Success(k, at)) =>
      Stored(objects, k, p.request) && Written(objects[k].record, p.request, p.now) && at == p.now
    case Done(Retry(k, at)) => Stored(objects, k, p.request) && at == objects[k].record.committedAt
    case _ => true
  }

  predicate SerialInv(s: System) { forall i :: 0 <= i < |s.procs| ==> Undisturbed(s.procs[i], s.objects) }

  /** No object is changed or lost. */
  predicate Grows(a: Store, b: Store) { forall k :: k in a ==> k in b && b[k] == a[k] }

  lemma MoverUndisturbed(p: Process, objects: Store, f: Fault)
    requires Storage(objects) && Coherent(p, objects) && Undisturbed(p, objects)
    ensures var next := Advance(p.Draft(), p.stage, objects, f);
            Undisturbed(p.(stage := next.0), next.1) && Grows(objects, next.1)
  {
    if p.stage.Claiming? && p.Draft().ledgerKey in objects {
      assert WellKept(objects, p.Draft().ledgerKey);
    }
  }

  lemma OthersUndisturbed(p: Process, q: Process, objects: Store, f: Fault)
    requires Coherent(p, objects) && Coherent(q, objects) && Undisturbed(p, objects) && Undisturbed(q, objects)
    requires p.request.stable == q.request.stable ==> Over(p.stage) || Over(q.stage)
    requires Grows(objects, Advance(p.Draft(), p.stage, objects, f).1)
    ensures Undisturbed(q, Advance(p.Draft(), p.stage, objects, f).1)
  {
  }

  lemma StepUndisturbed(s: System, e: Event)
    requires Inv(s) && Alone(s) && SerialInv(s) && Enabled(s, e)
    ensures SerialInv(Step(s, e)) && Grows(s.objects, Step(s, e).objects)
  {
    if e.Move? {
      var p := s.procs[e.proc];
      assert Coherent(p, s.objects);
      MoverUndisturbed(p, s.objects, e.fault);
      var objects := Advance(p.Draft(), p.stage, s.objects, e.fault).1;
      forall i | 0 <= i < |s.procs| && i != e.proc ensures Undisturbed(s.procs[i], objects) {
        assert Coherent(s.procs[i], s.objects);
        OthersUndisturbed(p, s.procs[i], s.objects, e.fault);
      }
    }
  }

  lemma {:induction false} SerialRun(run: seq<System>, i: nat)
    requires IsSerialRun(run) && i < |run|
    ensures SerialInv(run[i])
  {
    if i > 0 {
      SerialRun(run, i - 1);
      RunKeepsInv(run, i - 1);
      var e := Cause(run[i - 1], run[i]);
      StepUndisturbed(run[i - 1], e);
    }
  }

  lemma GrowsOn(a: Store, b: Store, c: Store)
    requires Grows(a, b) && Grows(b, c)
    ensures Grows(a, c)
  {
  }

  lemma SerialStepGrows(run: seq<System>, i: nat)
    requires IsSerialRun(run) && 0 < i < |run|
    ensures Grows(run[i - 1].objects, run[i].objects)
  {
    SerialRun(run, i - 1);
    RunKeepsInv(run, i - 1);
    var e := Cause(run[i - 1], run[i]);
    StepUndisturbed(run[i - 1], e);
  }

  lemma {:induction false} SerialGrows(run: seq<System>, i: nat, j: nat)
    requires IsSerialRun(run) && i <= j < |run|
    ensures Grows(run[i].objects, run[j].objects)
    decreases j
  {
    if i < j {
      SerialGrows(run, i, j - 1);
      SerialStepGrows(run, j);
      GrowsOn(run[i].objects, run[j - 1].objects, run[j].objects);
    }
  }

  /** An acknowledged commit is durable: from then on its ledger key holds what it asked for, committed when
      the acknowledgement says; and a record it wrote itself says when it was recorded. */
  lemma AcknowledgedIsStored(run: seq<System>, i: nat, j: nat, p: nat)
    requires IsSerialRun(run) && i <= j < |run| && p < |run[i].procs| && Acked(run[i].procs[p].stage)
    ensures var c, k := run[i].procs[p], run[i].procs[p].stage.result.key;
      && Stored(run[j].objects, k, c.request)
      && run[j].objects[k].record.committedAt == c.stage.result.committedAt
      && (c.stage.result.Success? ==> Written(run[j].objects[k].record, c.request, c.now))
  {
    SerialRun(run, i);
    SerialGrows(run, i, j);
    assert Undisturbed(run[i].procs[p], run[i].objects);
  }

  /** A commit keeps the request it was started with. */
  lemma {:induction false} RequestStays(run: seq<System>, i: nat, j: nat, p: nat)
    requires IsRun(run) && i <= j < |run| && p < |run[i].procs|
    ensures p < |run[j].procs|
    ensures run[j].procs[p].request == run[i].procs[p].request && run[j].procs[p].now == run[i].procs[p].now
    decreases j
  {
    if i < j {
      RequestStays(run, i, j - 1, p);
      SameRequest(run[j - 1], run[j], p);
    }
  }

  /** So of any request: from its acknowledgement on, the ledger holds it. */
  lemma AcknowledgedRequestIsStored(run: seq<System>, h: nat, i: nat, j: nat, q: Request, now: nat)
    requires IsSerialRun(run) && h + 1 <= i <= j < |run| && run[h + 1] == Step(run[h], Start(q, now))
    ensures |run[h].procs| < |run[i].procs|
    ensures var p := run[i].procs[|run[h].procs|];
      Acked(p.stage) ==>
        && p.stage.result.key in run[j].objects && run[j].objects[p.stage.result.key].Body?
        && var r := run[j].objects[p.stage.result.key].record;
           && r.stable == q.stable && r.content == q.content && r.committedAt == p.stage.result.committedAt
           && (p.stage.result.Success? ==> r.committedAt == now)
           && (p.stage.result.Success? ==> r.recordedAt == if q.recordedAt.Some? then q.recordedAt.value else now)
  {
    var p := |run[h].procs|;
    assert run[h + 1].procs[p].request == q && run[h + 1].procs[p].now == now;
    RequestStays(run, h + 1, i, p);
    if Acked(run[i].procs[p].stage) { AcknowledgedIsStored(run, i, j, p); }
  }

  // ------------------------------------------------------------ commits after the record exists

  /** Where a commit can stand that began when its record r already existed at k. */
  predicate Answered(p: Process, k: Key, r: Record) {
    match p.stage
    case Claiming => true
    case ReadingClaim => true
    case ReadingRecord(at) => at == k
    case Stopped => true
    case Done(Unavailable) => true
    case Done(Retry(key, at)) => r.content == p.request.content && key == k && at == r.committedAt
    case Done(Conflict) => r.content != p.request.content
    case _ => false
  }

  lemma MoverAnswered(p: Process, objects: Store, f: Fault, k: Key)
    requires Storage(objects) && Coherent(p, objects) && k.RecordKey? && k in objects && objects[k].Body?
    requires p.request.stable == k.stable && Answered(p, k, objects[k].record)
    ensures Answered(p.(stage := Advance(p.Draft(), p.stage, objects, f).0), k, objects[k].record)
  {
    assert WellKept(objects, k);
  }

  lemma StepAnswered(s: System, e: Event, k: Key, q: nat)
    requires Inv(s) && Enabled(s, e) && k.RecordKey? && k in s.objects && s.objects[k].Body?
    requires q < |Step(s, e).procs| && Step(s, e).procs[q].request.stable == k.stable
    requires q < |s.procs| ==> Answered(s.procs[q], k, s.objects[k].record)
    ensures Answered(Step(s, e).procs[q], k, s.objects[k].record)
  {
    assert WellKept(s.objects, k);
    if e.Move? && e.proc == q {
      assert Coherent(s.procs[q], s.objects);
      MoverAnswered(s.procs[q], s.objects, e.fault, k);
    }
  }

  lemma RecordStays(run: seq<System>, i: nat, j: nat, k: Key)
    requires IsSerialRun(run) && i <= j < |run| && k.RecordKey? && k in run[i].objects
    ensures k in run[j].objects && run[j].objects[k] == run[i].objects[k] && run[i].objects[k].Body?
  {
    SerialGrows(run, i, j);
    RunKeepsInv(run, i);
    assert WellKept(run[i].objects, k);
  }

  lemma LateStep(s: System, t: System, k: Key, r: Record, q: nat)
    requires Inv(s) && Follows(s, t) && k.RecordKey? && k in s.objects && s.objects[k] == Body(r)
    requires q < |t.procs| && t.procs[q].request.stable == k.stable
    requires q < |s.procs| ==> Answered(s.procs[q], k, r)
    ensures Answered(t.procs[q], k, r)
  {
    var e := Cause(s, t);
    StepAnswered(s, e, k, q);
  }

  lemma SameRequest(s: System, t: System, q: nat)
    requires Follows(s, t) && q < |s.procs|
    ensures q < |t.procs| && t.procs[q].request == s.procs[q].request && t.procs[q].now == s.procs[q].now
  {
    var e := Cause(s, t);
  }

  lemma {:induction false} LateCommit(run: seq<System>, i: nat, j: nat, k: Key, r: Record, q: nat)
    requires IsSerialRun(run) && i <= j < |run| && k.RecordKey? && k in run[i].objects && run[i].objects[k] == Body(r)
    requires |run[i].procs| <= q < |run[j].procs| && run[j].procs[q].request.stable == k.stable
    ensures Answered(run[j].procs[q], k, r)
    decreases j
  {
    if i < j {
      RecordStays(run, i, j - 1, k);
      if q < |run[j - 1].procs| {
        SameRequest(run[j - 1], run[j], q);
        LateCommit(run, i, j - 1, k, r, q);
      }
      RunKeepsInv(run, j - 1);
      LateStep(run[j - 1], run[j], k, r, q);
    }
  }

  /** After the first acknowledgement the record stays as it is, and a commit begun later that finishes
      is unavailable, a retry with that ledger key if its action is the same, a conflict if it differs. */
  lemma AfterFirstAcknowledgement(run: seq<System>, i: nat, j: nat, p: nat, q: nat)
    requires IsSerialRun(run) && i <= j < |run| && p < |run[i].procs| <= q < |run[j].procs|
    requires Acked(run[i].procs[p].stage) && run[i].procs[p].request.stable == run[j].procs[q].request.stable
    ensures var k := run[i].procs[p].stage.result.key;
      && k in run[i].objects && k in run[j].objects && run[j].objects[k] == run[i].objects[k] && run[i].objects[k].Body?
      && (run[j].procs[q].stage.Done? ==>
            || run[j].procs[q].stage.result.Unavailable?
            || (run[i].procs[p].request.content == run[j].procs[q].request.content
                && run[j].procs[q].stage.result == Retry(k, run[i].objects[k].record.committedAt))
            || (run[i].procs[p].request.content != run[j].procs[q].request.content
                && run[j].procs[q].stage.result.Conflict?))
  {
    AcknowledgedIsStored(run, i, i, p);
    RunKeepsInv(run, i);
    assert Coherent(run[i].procs[p], run[i].objects);
    var k := run[i].procs[p].stage.result.key;
    RecordStays(run, i, j, k);
    LateCommit(run, i, j, k, run[i].objects[k].record, q);
  }

  // ------------------------------------------------------------ why they must not overlap

  predicate Loses(s: System) {
    exists i :: 0 <= i < |s.procs| && Acked(s.procs[i].stage)
                && !Stored(s.objects, s.procs[i].stage.result.key, s.procs[i].request)
  }

  lemma Extend(run: seq<System>, e: Event) returns (longer: seq<System>)
    requires IsRun(run) && Enabled(run[|run| - 1], e)
    ensures IsRun(longer) && longer[|longer| - 1] == Step(run[|run| - 1], e)
  {
    longer := run + [Step(run[|run| - 1], e)];
    assert Follows(run[|run| - 1], longer[|run|]);
    forall i | 0 < i < |longer| ensures Follows(longer[i - 1], longer[i]) {
      if i < |run| { assert Follows(run[i - 1], run[i]); }
    }
  }

  lemma Overwritten(s: System, k: Key, y: Record)
    requires |s.procs| > 0 && Acked(s.procs[0].stage) && s.procs[0].stage.result.key == k
    requires k in s.objects && s.objects[k] == Body(y) && s.procs[0].request.content != y.content
    ensures Loses(s)
  {
    assert Acked(s.procs[0].stage) && !Stored(s.objects, s.procs[0].stage.result.key, s.procs[0].request);
  }

  /** Two overlapping commits of one key with different actions can both succeed: the later record wins. */
  lemma OverlapLosesARecord(stable: string, a: Content, b: Content, now: nat)
    requires Valid(stable, a) && Valid(stable, b) && a != b
    ensures exists run: seq<System> :: IsRun(run) && Loses(run[|run| - 1])
  {
    var x := Prepared(Request(stable, a, None), now);
    var y := Prepared(Request(stable, b, None), now);
    var run := OverlapToWrite(stable, a, b, now);
    run := Extend(run, Move(0, Works));
    run := Extend(run, Move(0, Works));
    run := Extend(run, Move(1, Works));
    Overwritten(run[|run| - 1], x.ledgerKey, y);
  }

  /** Both have seen that the claimed record is missing, and both are about to write it. */
  lemma OverlapToWrite(stable: string, a: Content, b: Content, now: nat) returns (run: seq<System>)
    requires Valid(stable, a) && Valid(stable, b)
    ensures var x, y := Prepared(Request(stable, a, None), now), Prepared(Request(stable, b, None), now);
      IsRun(run) && run[|run| - 1] == System(map[IndexKey(stable) := Pointer(x.ledgerKey)],
                                             [Process(Request(stable, a, None), now, Writing(x)),
                                              Process(Request(stable, b, None), now, Writing(y))])
  {
    run := [System(map[], [])];
    run := Extend(run, Start(Request(stable, a, None), now));
    run := Extend(run, Start(Request(stable, b, None), now));
    run := Extend(run, Move(0, Works));
    run := Extend(run, Move(1, Works));
    run := Extend(run, Move(1, Works));
    run := Extend(run, Move(1, Works));
  }
}
