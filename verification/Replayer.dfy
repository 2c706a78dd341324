/**
 One replay pass: batch after batch, the cursor persisted after each.
 */
module Replayer {
  import opened Options
  import opened Replay

  datatype SaveFault = Saves | SaveFails | SaveUnconfirmed

  /** What goes wrong around one batch. */
  datatype BatchFault = BatchFault(listed: bool, save: SaveFault)

  function FaultAt(faults: seq<BatchFault>, i: nat): BatchFault {
    if i < |faults| then faults[i] else BatchFault(true, Saves)
  }

  predicate Fine(faults: seq<BatchFault>) { forall i :: 0 <= i < |faults| ==> faults[i] == BatchFault(true, Saves) }

  datatype Outcome =
    Outcome(delivered: nat, last: nat, persisted: nat, backlog: Option<Backlog>, failure: Option<Failure>,
            saveFailed: bool)

  /** The cursor after delivering the first d objects of what it did not cover. */
  function Reached(cursor: nat, rest: seq<Obj>, d: nat): nat
    requires d <= |rest|
  {
    if d == 0 then cursor else rest[d - 1].key
  }

  lemma {:induction false} AfterReached(l: seq<Obj>, cursor: nat, d: nat)
    requires Sorted(l) && d <= |After(l, cursor)|
    ensures After(l, Reached(cursor, After(l, cursor), d)) == After(l, cursor)[d..]
    ensures Reached(cursor, After(l, cursor), d) >= cursor && (d > 0 ==> Reached(cursor, After(l, cursor), d) > cursor)
  {
    if d > 0 {
      AfterSuffix(l, cursor, d);
      AfterBeyond(l, cursor, d - 1);
    }
  }

  lemma {:induction false} AfterBeyond(l: seq<Obj>, cursor: nat, i: nat)
    requires Sorted(l) && i < |After(l, cursor)|
    ensures After(l, cursor)[i].key > cursor
  {
    if l[0].key <= cursor { AfterBeyond(l[1..], cursor, i); }
  }

  /** A batch delivers the front of the rest: all of it, `limit` of it, or up to what blocks the whole rest. */
  lemma {:induction false} BatchAdvances(b: Batch, failure: Option<Failure>, rest: seq<Obj>, limit: nat)
    requires limit >= 1 && BatchOf(b, failure, rest, limit) && forall i :: 0 <= i < |rest| ==> rest[i].key > 0
    ensures |b.delivered| <= Sweep(rest) && b.delivered == rest[..|b.delivered|]
    ensures b.last == Reached(0, rest, |b.delivered|)
    ensures failure.None? && b.next == 0 ==> |b.delivered| == |rest| && Stop(rest) == None
    ensures failure.None? && b.next != 0 ==> |b.delivered| == limit
    ensures failure.Some? ==> |b.delivered| == Sweep(rest) < limit && failure == Stop(rest)
    ensures b.backlog == if |rest| <= limit then Some(Measure(rest[|b.delivered|..])) else None
  {
    SweepOfFirst(rest, limit);
  }

  /** Sweeping the first part of the rest stops there only if sweeping the rest does. */
  lemma SweepOfFirst(rest: seq<Obj>, limit: nat)
    ensures var taken := if |rest| <= limit then rest else rest[..limit]; var n := Sweep(taken);
            && n <= Sweep(rest) && taken[..n] == rest[..n]
            && (n < |taken| ==> n == Sweep(rest) && Stop(taken) == Stop(rest))
  {
    var taken := if |rest| <= limit then rest else rest[..limit];
    var n := Sweep(taken);
    Delivered(taken, n);
    assert forall i :: 0 <= i < n ==> rest[i] == taken[i];
    SweepEndsAt(rest, n);
    if n < |taken| {
      assert rest[n..][0] == taken[n];
    }
  }

  lemma {:induction false} Delivered(objects: seq<Obj>, n: nat)
    requires n == Sweep(objects)
    ensures forall i :: 0 <= i < n ==> objects[i].fate.Delivers?
    ensures n < |objects| ==> !objects[n].fate.Delivers?
  {
    if n > 0 {
      Delivered(objects[1..], n - 1);
      assert forall i :: 0 < i < n ==> objects[i] == objects[1..][i - 1];
    }
  }

  class Replayer {
    var cursor: nat
    var out: seq<Obj>
    const batchSize: nat

    constructor (cursor: nat, batchSize: int)
      ensures this.cursor == cursor && out == []
      ensures this.batchSize == if batchSize > 0 then batchSize else 500
    {
      this.cursor, out := cursor, [];
      this.batchSize := if batchSize <= 0 then DEFAULT_BATCH_SIZE else batchSize;
    }

    method Save(key: nat, f: SaveFault) returns (ok: bool)
      modifies this`cursor
      ensures ok <==> f.Saves?
      ensures cursor == if f.SaveFails? then old(cursor) else key
    {
      if !f.SaveFails? { cursor := key; }
      return f.Saves?;
    }

    /** One turn of the loop: a batch, then the cursor. */
    method Turn(l: seq<Obj>, o: Outcome, f: BatchFault) returns (n: Outcome, more: bool)
      requires Sorted(l) && batchSize >= 1
      requires o.persisted == cursor && !o.saveFailed && o.failure.None? && o.backlog.None?
      modifies this
      ensures TurnOf(batchSize, old(cursor), After(l, old(cursor)), o, n, more, f)
      ensures n.delivered - o.delivered <= |After(l, old(cursor))|
      ensures out == old(out) + After(l, old(cursor))[..n.delivered - o.delivered]
      ensures n.persisted <= cursor <= Reached(old(cursor), After(l, old(cursor)), n.delivered - o.delivered)
      ensures !n.saveFailed ==> cursor == n.persisted
    {
      ghost var rest := After(l, cursor);
      var b, failure := ReplayBatch(l, o.persisted, batchSize, f.listed);
      if f.listed {
        forall i | 0 <= i < |rest| ensures rest[i].key > 0 { AfterBeyond(l, cursor, i); }
        BatchAdvances(b, failure, rest, batchSize);
      }
      AfterReached(l, cursor, |b.delivered|);
      out := out + b.delivered;
      n := o.(delivered := o.delivered + |b.delivered|, last := if b.last != 0 then b.last else o.last);
      if b.last != 0 && b.last != n.persisted {
        var saved := Save(b.last, f.save);
        if !saved { return n.(saveFailed := true), false; }
        n := n.(persisted := b.last);
      }
      if failure.Some? { return n.(failure := failure, backlog := b.backlog), false; }
      if b.next == 0 { return n.(backlog := b.backlog), false; }
      more := true;
    }

    /** Delivers what the one-listing replay would, in its order and up to its stopping point unless a
        listing or a save fails first; a reported backlog measures exactly what the persisted cursor
        does not cover. */
    method Replay(l: seq<Obj>, loads: bool, faults: seq<BatchFault>) returns (o: Outcome)
      requires Sorted(l) && batchSize >= 1
      modifies this
      ensures !loads ==>
                o == Outcome(0, 0, 0, None, Some(LoadFailed), false) && cursor == old(cursor) && out == old(out)
      ensures loads ==>
                PassOf(old(cursor), After(l, old(cursor)), o) && out == old(out) + After(l, old(cursor))[..o.delivered]
      ensures loads ==> o.persisted <= cursor <= Reached(old(cursor), After(l, old(cursor)), o.delivered)
      ensures loads && !o.saveFailed ==> cursor == o.persisted
      ensures loads && o.backlog.Some? ==> o.backlog == Some(Measure(After(l, o.persisted)))
      ensures loads && Fine(faults) ==> Complete(batchSize, After(l, old(cursor)), o)
    {
      if !loads { return Outcome(0, 0, 0, None, Some(LoadFailed), false); }
      ghost var start, rest, before := cursor, After(l, cursor), out;
      o := Outcome(0, 0, cursor, None, None, false);
      var i, more := 0, true;
      while more
        invariant PassOf(start, rest, o) && out == before + rest[..o.delivered]
        invariant more ==> Whole(batchSize, o.delivered)
        invariant o.persisted <= cursor <= Reached(start, rest, o.delivered)
        invariant !o.saveFailed ==> cursor == o.persisted
        invariant more ==> !o.saveFailed && o.failure.None? && o.backlog.None?
        invariant !more && Fine(faults) ==> Complete(batchSize, rest, o)
        decreases |rest| - o.delivered, more
      {
        ghost var was := o;
        var f := FaultAt(faults, i);
        AfterReached(l, start, o.delivered);
        o, more := Turn(l, o, f);
        TurnTaken(batchSize, start, rest, before, was, o, more, f);
        i := i + 1;
      }
      AfterReached(l, start, o.delivered);
    }
  }

  /** What a turn that started at `cursor`, with `rest` not covered, did to the outcome. */
  predicate TurnOf(size: nat, cursor: nat, rest: seq<Obj>, o: Outcome, n: Outcome, more: bool, f: BatchFault) {
    var d := n.delivered - o.delivered;
    && 0 <= d <= Sweep(rest) && n.last == Reached(o.last, rest, d)
    && cursor <= n.persisted && (!n.saveFailed ==> n.persisted == Reached(cursor, rest, d))
    && (more ==> d == size >= 1 && !n.saveFailed && n.failure.None? && n.backlog.None?)
    && (!more ==> (n.backlog.Some? <==> f.listed && !n.saveFailed && |rest| <= size))
    && (n.backlog.Some? ==> n.backlog == Some(Measure(rest[d..])))
    && (!more && f == BatchFault(true, Saves) ==>
          d == Sweep(rest) && n.failure == Stop(rest) && !n.saveFailed && (n.failure.Some? ==> d < size)
          && (n.failure.None? ==> |rest| <= size))
  }

  /** What holds of the outcome of a pass that started at `start`, with `rest` not covered, at every turn. */
  predicate PassOf(start: nat, rest: seq<Obj>, o: Outcome) {
    && o.delivered <= Sweep(rest) && o.last == Reached(0, rest, o.delivered)
    && start <= o.persisted && (!o.saveFailed ==> o.persisted == Reached(start, rest, o.delivered))
    && (o.backlog.Some? ==> o.backlog == Some(Measure(rest[o.delivered..])) && !o.saveFailed)
  }

  /** The pass stopped where the one-listing replay stops.  It knows the backlog if nothing is left, and
      otherwise if what is left ends within the batch that was stopped. */
  predicate Complete(size: nat, rest: seq<Obj>, o: Outcome)
    requires size >= 1
  {
    && o.delivered == Sweep(rest) && o.failure == Stop(rest) && !o.saveFailed
    && (o.failure.None? ==> o.backlog == Some(Backlog(0, None)))
    && (o.failure.Some? ==> (o.backlog.Some? <==> |rest| <= Begun(size, Sweep(rest)) + size))
  }

  /** n objects fill a whole number of batches. */
  predicate Whole(size: nat, n: nat)
    requires size >= 1
  {
    n == 0 || (n >= size && Whole(size, n - size))
  }

  /** Where the batch that holds the n-th object begins. */
  function Begun(size: nat, n: nat): nat
    requires size >= 1
  {
    if n < size then 0 else size + Begun(size, n - size)
  }

  lemma {:induction false} BegunAt(size: nat, m: nat, d: nat)
    requires size >= 1 && Whole(size, m) && d < size
    ensures Begun(size, m + d) == m
  {
    if m > 0 { BegunAt(size, m - size, d); }
  }

  /** The last turn, which begins after whole batches. */
  lemma {:induction false} LastTurn(size: nat, rest: seq<Obj>, o: Outcome, n: Outcome, f: BatchFault)
    requires size >= 1 && Whole(size, o.delivered) && o.delivered <= Sweep(rest) && f == BatchFault(true, Saves)
    requires TurnOf(size, o.persisted, rest[o.delivered..], o, n, false, f)
    ensures Complete(size, rest, n)
  {
    var d := n.delivered - o.delivered;
    SweepSplits(rest, o.delivered);
    RestOn(rest, o.delivered, d);
    if n.failure.Some? { BegunAt(size, o.delivered, d); }
  }

  lemma ReachedOn(base: nat, rest: seq<Obj>, m: nat, d: nat)
    requires m + d <= |rest|
    ensures Reached(Reached(base, rest, m), rest[m..], d) == Reached(base, rest, m + d)
  {
  }

  lemma RestOn(rest: seq<Obj>, m: nat, d: nat)
    requires m + d <= |rest|
    ensures rest[m..][d..] == rest[m + d..] && rest[..m] + rest[m..][..d] == rest[..m + d]
  {
  }

  lemma TurnExtends(size: nat, start: nat, rest: seq<Obj>, o: Outcome, n: Outcome, more: bool, f: BatchFault)
    requires PassOf(start, rest, o) && !o.saveFailed && TurnOf(size, o.persisted, rest[o.delivered..], o, n, more, f)
    ensures PassOf(start, rest, n)
    ensures Reached(o.persisted, rest[o.delivered..], n.delivered - o.delivered) == Reached(start, rest, n.delivered)
    ensures rest[..o.delivered] + rest[o.delivered..][..n.delivered - o.delivered] == rest[..n.delivered]
  {
    var d := n.delivered - o.delivered;
    SweepSplits(rest, o.delivered);
    ReachedOn(start, rest, o.delivered, d);
    ReachedOn(0, rest, o.delivered, d);
    RestOn(rest, o.delivered, d);
  }

  lemma {:induction false} TurnTaken(size: nat, start: nat, rest: seq<Obj>, before: seq<Obj>, o: Outcome, n: Outcome,
                                     more: bool, f: BatchFault)
    requires size >= 1 && PassOf(start, rest, o) && !o.saveFailed && Whole(size, o.delivered)
    requires TurnOf(size, o.persisted, rest[o.delivered..], o, n, more, f)
    ensures PassOf(start, rest, n) && (more ==> Whole(size, n.delivered) && o.delivered < n.delivered)
    ensures !more && f == BatchFault(true, Saves) ==> Complete(size, rest, n)
    ensures Reached(o.persisted, rest[o.delivered..], n.delivered - o.delivered) == Reached(start, rest, n.delivered)
    ensures before + rest[..o.delivered] + rest[o.delivered..][..n.delivered - o.delivered]
            == before + rest[..n.delivered]
  {
    TurnExtends(size, start, rest, o, n, more, f);
    if !more && f == BatchFault(true, Saves) { LastTurn(size, rest, o, n, f); }
  }

  lemma {:induction false} SweepSplits(objects: seq<Obj>, n: nat)
    requires n <= Sweep(objects)
    ensures Sweep(objects) == n + Sweep(objects[n..]) && Stop(objects) == Stop(objects[n..])
  {
    Delivered(objects, Sweep(objects));
    SweepEndsAt(objects, n);
  }

  const DEFAULT_BATCH_SIZE: nat := 500
}
