/**
 The commit as the sink performs it, store call by store call, and what it amounts to when nothing
 else touches its stable key.
 */
module Sink {
  import opened Options
  import opened Ledger
  import opened StableKeys

  /** The most store calls a commit at this stage can still make. */
  function Turns(s: Stage): nat {
    match s
    case Claiming => 5
    case ReadingClaim => 4
    case ReadingRecord(_) => 3
    case Writing(_) => 2
    case Verifying(_) => 1
    case _ => 0
  }

  /** One commit running by itself, the n-th call meeting the n-th fault. */
  function RunAlone(me: Record, stage: Stage, objects: Store, faults: seq<Fault>): (r: (CommitResult, Store))
    requires !stage.Stopped? && |faults| >= Turns(stage)
    decreases Turns(stage)
  {
    if stage.Done? then (stage.result, objects)
    else
      var next := Advance(me, stage, objects, faults[0]);
      RunAlone(me, next.0, next.1, faults[1..])
  }

  lemma {:induction false} VerifyAlone(r: Record, objects: Store, f: seq<Fault>)
    requires |f| >= 1
    ensures RunAlone(r, Verifying(r), objects, f) == (Verify(r, objects, f[0]).result, objects)
  {
    assert RunAlone(r, Verify(r, objects, f[0]), objects, f[1..]) == (Verify(r, objects, f[0]).result, objects);
  }

  datatype PutOutcome = PutOk | AlreadyExists | PutFailed

  class Bucket {
    var objects: Store

    constructor ()
      ensures objects == map[]
    {
      objects := map[];
    }

    method PutIfAbsent(key: Key, value: Object, f: Fault) returns (r: PutOutcome)
      modifies this
      ensures r.PutFailed? <==> Reported(f)
      ensures !Reported(f) ==> (r.AlreadyExists? <==> key in old(objects))
      ensures objects == if f.FailsBefore? || key in old(objects) then old(objects) else old(objects)[key := value]
    {
      var present := key in objects;
      if !present && !f.FailsBefore? { objects := objects[key := value]; }
      return if Reported(f) then PutFailed else if present then AlreadyExists else PutOk;
    }

    method Put(key: Key, value: Object, f: Fault) returns (ok: bool)
      modifies this
      ensures ok <==> !Reported(f)
      ensures objects == if f.FailsBefore? || f.Swallowed? then old(objects) else old(objects)[key := value]
    {
      if !f.FailsBefore? && !f.Swallowed? { objects := objects[key := value]; }
      return !Reported(f);
    }

    method WriteRecord(r: Record, f: seq<Fault>) returns (result: CommitResult)
      requires |f| >= 2
      modifies this
      ensures (result, objects) == RunAlone(r, Writing(r), old(objects), f)
    {
      var ok := Put(r.ledgerKey, Body(r), f[0]);
      if !ok { return Unavailable; }
      VerifyAlone(r, objects, f[1..]);
      if Reported(f[1]) || r.ledgerKey !in objects { return Unavailable; }
      return Success(r.ledgerKey, r.committedAt);
    }

    method ResolveExisting(me: Record, f: seq<Fault>) returns (result: CommitResult)
      requires |f| >= 4
      modifies this
      ensures (result, objects) == RunAlone(me, ReadingClaim, old(objects), f)
    {
      var index := IndexKey(me.stable);
      if Reported(f[0]) || index !in objects || !objects[index].Pointer? { return Unavailable; }
      var key := objects[index].key;
      assert RunAlone(me, ReadingClaim, objects, f) == RunAlone(me, ReadingRecord(key), objects, f[1..]);
      if Reported(f[1]) { return Unavailable; }
      if key !in objects {
        var completed := me.(ledgerKey := key);
        RecordDecides(me, completed, objects, f[1..][1..]);
        result := WriteRecord(completed, f[1..][1..]);
        return;
      }
      if !objects[key].Body? || !SameAction(objects[key].record, me) { return Conflict; }
      return Retry(key, objects[key].record.committedAt);
    }

    method Commit(q: Request, now: nat, f: seq<Fault>) returns (result: CommitResult)
      requires |f| >= 5
      modifies this
      ensures (result, objects) == RunAlone(Prepared(q, now), Begin(q, now).stage, old(objects), f)
      ensures Storage(old(objects)) && Quiet(f) ==> Answers(q, now, old(objects), result, objects)
    {
      if Storage(objects) && Quiet(f) { CommitMeans(q, now, objects, f); }
      if !Valid(q.stable, q.content) { return Conflict; }
      var me := Prepared(q, now);
      var claim := PutIfAbsent(IndexKey(q.stable), Pointer(me.ledgerKey), f[0]);
      match claim
      case PutFailed => return Unavailable;
      case PutOk =>
        result := WriteRecord(me, f[1..]);
      case AlreadyExists =>
        result := ResolveExisting(me, f[1..]);
    }
  }

  /** From the write on, only the record being written matters. */
  lemma {:induction false} RecordDecides(me: Record, r: Record, objects: Store, f: seq<Fault>)
    requires |f| >= 2
    ensures RunAlone(me, Writing(r), objects, f) == RunAlone(r, Writing(r), objects, f)
  {
    var next := WriteBody(r, objects, f[0]);
    if next.0.Verifying? {
      assert RunAlone(me, next.0, next.1, f[1..]) == RunAlone(r, next.0, next.1, f[1..]);
    }
  }

  // ------------------------------------------------------------ what a commit amounts to

  predicate Quiet(f: seq<Fault>) { |f| == 5 && forall i :: 0 <= i < |f| ==> f[i] == Works }

  /** The record under a stable key, following its claim. */
  function Lookup(objects: Store, stable: string): Option<Record> {
    var k := IndexKey(stable);
    if k in objects && objects[k].Pointer? && objects[k].key in objects && objects[objects[k].key].Body?
    then Some(objects[objects[k].key].record) else None
  }

  lemma {:induction false} QuietWrite(r: Record, objects: Store, f: seq<Fault>)
    requires |f| >= 2 && f[0] == f[1] == Works
    ensures RunAlone(r, Writing(r), objects, f) == (Success(r.ledgerKey, r.committedAt),
                                                    objects[r.ledgerKey := Body(r)])
  {
    VerifyAlone(r, objects[r.ledgerKey := Body(r)], f[1..]);
  }

  /** The stages passed on the way to a claim that already exists. */
  lemma {:induction false} QuietResolve(me: Record, key: Key, objects: Store, f: seq<Fault>)
    requires Quiet(f) && Claimed(objects, me.stable, key)
    ensures RunAlone(me, Claiming, objects, f) == RunAlone(me, ReadingRecord(key), objects, f[1..][1..])
  {
    assert f[1..][0] == Works;
    assert RunAlone(me, Claiming, objects, f) == RunAlone(me, ReadingClaim, objects, f[1..]);
  }

  /** A request without a known action, a known decision and a key of more than white space is refused. */
  predicate Refusable(q: Request) {
    || q.content.action.UnknownAction? || q.content.decision.UnknownDecision?
    || forall i :: 0 <= i < |q.stable| ==> Space(q.stable[i])
  }

  /** The answer to a request made at `now`, as a map from stable key to its first action would give it: what
      cannot be said is refused, the first commit stores what was asked, an unfinished one is finished under
      the key its claim names, the same content is a retry, other content a conflict that changes nothing. */
  predicate Answers(q: Request, now: nat, objects: Store, r: CommitResult, after: Store) {
    var at := if q.recordedAt.Some? then q.recordedAt.value else now;
    var index := IndexKey(q.stable);
    if Refusable(q) then r == Conflict && after == objects
    else
      match Lookup(objects, q.stable)
      case Some(found) =>
        && after == objects
        && r == if found.content == q.content then Retry(found.ledgerKey, found.committedAt) else Conflict
      case None =>
        && r.Success? && r.committedAt == now
        && (index !in objects ==> r.key == RecordKey(at, q.stable))
        && (index in objects ==> objects[index] == Pointer(r.key))
        && Lookup(after, q.stable) == Some(Record(q.stable, q.content, at, now, r.key))
        && after.Keys == objects.Keys + {index, r.key}
        && (forall k :: k in objects ==> k in after && after[k] == objects[k])
  }

  /** Two of a key's records say the same thing exactly when their contents agree. */
  lemma SameContent(a: Record, b: Record)
    requires a.stable == b.stable
    ensures SameAction(a, b) <==> a.content == b.content
  {
  }

  lemma {:induction false} CommitMeans(q: Request, now: nat, objects: Store, f: seq<Fault>)
    requires Storage(objects) && Quiet(f)
    ensures var r := RunAlone(Prepared(q, now), Begin(q, now).stage, objects, f);
            Answers(q, now, objects, r.0, r.1)
  {
    if !Refusable(q) {
      if IndexKey(q.stable) in objects {
        assert WellKept(objects, IndexKey(q.stable));
        ClaimedMeans(q, now, objects, objects[IndexKey(q.stable)].key, f);
      } else {
        UnclaimedMeans(q, now, objects, f);
      }
    }
  }

  lemma {:induction false} UnclaimedMeans(q: Request, now: nat, objects: Store, f: seq<Fault>)
    requires Storage(objects) && Quiet(f) && !Refusable(q) && IndexKey(q.stable) !in objects
    ensures var r := RunAlone(Prepared(q, now), Begin(q, now).stage, objects, f);
            Answers(q, now, objects, r.0, r.1)
  {
    var me := Prepared(q, now);
    QuietWrite(me, objects[IndexKey(q.stable) := Pointer(me.ledgerKey)], f[1..]);
  }

  lemma {:induction false} ClaimedMeans(q: Request, now: nat, objects: Store, key: Key, f: seq<Fault>)
    requires Storage(objects) && Quiet(f) && !Refusable(q) && Claimed(objects, q.stable, key)
    ensures var r := RunAlone(Prepared(q, now), Begin(q, now).stage, objects, f);
            Answers(q, now, objects, r.0, r.1)
  {
    var me := Prepared(q, now);
    QuietResolve(me, key, objects, f);
    var rest := f[1..][1..];
    assert rest[0] == rest[1..][0] == rest[1..][1] == Works;
    if key in objects {
      assert WellKept(objects, key);
      SameContent(objects[key].record, me);
    } else {
      var r := me.(ledgerKey := key);
      assert RunAlone(me, ReadingRecord(key), objects, rest) == RunAlone(me, Writing(r), objects, rest[1..]);
      RecordDecides(me, r, objects, rest[1..]);
      QuietWrite(r, objects, rest[1..]);
    }
  }
}
