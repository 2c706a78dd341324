/**
 Replaying the ledger to the searchable stream.

 The ledger is the ordered listing of its record objects.  A key is its rank in the listing order, from
 one; zero is the empty string, the cursor before anything was delivered.  What happens when an object
 is read, decoded and forwarded is a fact about the object for the duration of a pass.
 */
module Replay {
  import opened Options

  datatype Fate = Delivers | ReadFails | DecodeFails | DeliveryFails

  datatype Obj = Obj(key: nat, modified: int, fate: Fate)

  datatype Failure = Blocked(key: nat, fate: Fate) | BadLimit | ListingFailed | LoadFailed

  predicate Sorted(l: seq<Obj>) {
    (forall i, j :: 0 <= i < j < |l| ==> l[i].key < l[j].key) && (forall i :: 0 <= i < |l| ==> 0 < l[i].key)
  }

  // ------------------------------------------------------------ listings

  /** The store lists from its start key, inclusively. */
  function List(l: seq<Obj>, start: nat): seq<Obj> {
    if |l| == 0 || l[0].key >= start then l else List(l[1..], start)
  }

  datatype Page = Page(objects: seq<Obj>, next: nat)

  function ListPage(l: seq<Obj>, start: nat, limit: nat): Page {
    var all := List(l, start);
    if |all| <= limit then Page(all, 0) else Page(all[..limit], all[limit].key)
  }

  function BeyondCursor(objects: seq<Obj>, cursor: nat): seq<Obj> {
    if cursor != 0 && |objects| > 0 && objects[0].key == cursor then objects[1..] else objects
  }

  /** The part of the ledger a cursor does not cover. */
  function After(l: seq<Obj>, cursor: nat): seq<Obj> {
    if |l| == 0 || l[0].key > cursor then l else After(l[1..], cursor)
  }

  /** A listing starts with the start key's own object if it is still there. */
  lemma {:induction false} ListIsInclusive(l: seq<Obj>, start: nat, o: Obj)
    requires Sorted(l)
    ensures o in List(l, start) <==> o in l && o.key >= start
  {
    if |l| > 0 && l[0].key < start {
      ListIsInclusive(l[1..], start, o);
      assert l == [l[0]] + l[1..];
    } else if o in l {
      var i :| 0 <= i < |l| && l[i] == o;
      assert l[0].key <= l[i].key;
    }
  }

  lemma {:induction false} BeyondIsAfter(l: seq<Obj>, cursor: nat)
    requires Sorted(l)
    ensures BeyondCursor(List(l, cursor), cursor) == After(l, cursor)
  {
    if |l| > 0 && l[0].key < cursor {
      BeyondIsAfter(l[1..], cursor);
    } else if |l| > 1 {
      assert l[1..][0].key > l[0].key;
    }
  }

  /** What one batch takes: the page less the cursor's own object, cut to the limit. */
  function Select(l: seq<Obj>, cursor: nat, limit: nat): Page {
    var page := ListPage(l, cursor, limit + 1);
    var objects := BeyondCursor(page.objects, cursor);
    if |objects| > limit then Page(objects[..limit], objects[limit].key) else Page(objects, page.next)
  }

  predicate FirstOf(p: Page, rest: seq<Obj>, limit: nat) {
    && p.objects == (if |rest| <= limit then rest else rest[..limit])
    && p.next == (if |rest| <= limit then 0 else rest[limit].key)
  }

  /** Whether or not the cursor's object still exists, a batch takes the first `limit` objects beyond it. */
  lemma {:induction false} SelectTakesFirst(l: seq<Obj>, cursor: nat, limit: nat)
    requires Sorted(l) && limit >= 1
    ensures FirstOf(Select(l, cursor, limit), After(l, cursor), limit)
  {
    BeyondIsAfter(l, cursor);
    var all := List(l, cursor);
    if |all| > limit + 1 {
      if cursor != 0 && all[0].key == cursor {
        assert all[..limit + 1][1..] == all[1..][..limit];
      } else {
        assert all[..limit + 1][..limit] == all[..limit];
      }
    }
  }

  lemma {:induction false} AfterSuffix(l: seq<Obj>, cursor: nat, d: nat)
    requires Sorted(l) && 0 < d <= |After(l, cursor)|
    ensures After(l, After(l, cursor)[d - 1].key) == After(l, cursor)[d..]
  {
    if l[0].key > cursor {
      AfterAt(l, d);
    } else {
      AfterSuffix(l[1..], cursor, d);
      AfterIn(l[1..], cursor, d - 1);
    }
  }

  lemma {:induction false} AfterIn(l: seq<Obj>, cursor: nat, i: nat)
    requires Sorted(l) && i < |After(l, cursor)|
    ensures After(l, cursor)[i] in l
  {
    if l[0].key <= cursor { AfterIn(l[1..], cursor, i); }
  }

  lemma {:induction false} AfterAt(l: seq<Obj>, d: nat)
    requires Sorted(l) && 0 < d <= |l|
    ensures After(l, l[d - 1].key) == l[d..]
  {
    if d == 1 {
      assert |l| > 1 ==> l[1..][0].key > l[0].key;
    } else {
      AfterAt(l[1..], d - 1);
      assert l[1..][d - 2] == l[d - 1] && l[1..][d - 1..] == l[d..];
    }
  }

  // ------------------------------------------------------------ delivering

  /** How many objects at the front are delivered before one is not. */
  function Sweep(objects: seq<Obj>): (n: nat)
    ensures n <= |objects|
  {
    if |objects| == 0 || !objects[0].fate.Delivers? then 0 else 1 + Sweep(objects[1..])
  }

  function Stop(objects: seq<Obj>): Option<Failure> {
    var n := Sweep(objects);
    if n == |objects| then None else Some(Blocked(objects[n].key, objects[n].fate))
  }

  /** The sweep ends at the first object that is not delivered. */
  lemma {:induction false} SweepEndsAt(objects: seq<Obj>, n: nat)
    requires n <= |objects| && (forall i :: 0 <= i < n ==> objects[i].fate.Delivers?)
    ensures n <= Sweep(objects) && Sweep(objects) == n + Sweep(objects[n..])
    ensures Stop(objects) == Stop(objects[n..])
  {
    if n == 0 {
      assert objects[0..] == objects;
    } else {
      SweepEndsAt(objects[1..], n - 1);
      assert objects[1..][n - 1..] == objects[n..];
    }
  }

  // ------------------------------------------------------------ backlog

  datatype Backlog = Backlog(objects: nat, oldest: Option<int>)

  function Earlier(a: int, b: int): int { if b < a then b else a }

  function Oldest(objects: seq<Obj>): Option<int> {
    if |objects| == 0 then None
    else if |objects| == 1 then Some(objects[0].modified)
    else Some(Earlier(Oldest(objects[..|objects| - 1]).value, objects[|objects| - 1].modified))
  }

  function Measure(objects: seq<Obj>): Backlog { Backlog(|objects|, Oldest(objects)) }

  lemma {:induction false} OldestIsLeast(objects: seq<Obj>)
    requires |objects| > 0
    ensures Oldest(objects).Some? && (exists o :: o in objects && o.modified == Oldest(objects).value)
    ensures forall o :: o in objects ==> Oldest(objects).value <= o.modified
  {
    if |objects| > 1 {
      var front := objects[..|objects| - 1];
      OldestIsLeast(front);
      assert objects == front + [objects[|objects| - 1]];
    } else {
      assert objects[0] in objects;
    }
  }

  method OldestModified(objects: seq<Obj>) returns (oldest: int)
    requires |objects| > 0
    ensures Some(oldest) == Oldest(objects)
  {
    oldest := objects[0].modified;
    assert objects[..1] == [objects[0]];
    for i := 1 to |objects|
      invariant Some(oldest) == Oldest(objects[..i])
    {
      assert objects[..i + 1][..i] == objects[..i];
      if objects[i].modified < oldest { oldest := objects[i].modified; }
    }
    assert objects[..|objects|] == objects;
  }

  method ExactReplayBacklog(objects: seq<Obj>, next: nat) returns (r: Option<Backlog>)
    ensures r == if next != 0 then None else Some(Measure(objects))
  {
    if next != 0 { return None; }
    if |objects| == 0 { return Some(Backlog(0, None)); }
    var oldest := OldestModified(objects);
    return Some(Backlog(|objects|, Some(oldest)));
  }

  /** The backlog gauge: one listing, measured. */
  method SinkBacklog(l: seq<Obj>, cursor: nat) returns (b: Backlog)
    requires Sorted(l)
    ensures b == Measure(After(l, cursor))
  {
    BeyondIsAfter(l, cursor);
    var objects := BeyondCursor(List(l, cursor), cursor);
    if |objects| == 0 { return Backlog(0, None); }
    var oldest := OldestModified(objects);
    return Backlog(|objects|, Some(oldest));
  }

  // ------------------------------------------------------------ one listing

  /** Forwards everything beyond the cursor from one listing. */
  method SinkReplay(l: seq<Obj>, cursor: nat) returns (out: seq<Obj>, failure: Option<Failure>)
    requires Sorted(l)
    ensures out == After(l, cursor)[..Sweep(After(l, cursor))] && failure == Stop(After(l, cursor))
  {
    BeyondIsAfter(l, cursor);
    var objects := BeyondCursor(List(l, cursor), cursor);
    out := [];
    for i := 0 to |objects|
      invariant out == objects[..i] && forall k :: 0 <= k < i ==> objects[k].fate.Delivers?
    {
      SweepEndsAt(objects, i);
      if !objects[i].fate.Delivers? { return out, Some(Blocked(objects[i].key, objects[i].fate)); }
      out := out + [objects[i]];
    }
    SweepEndsAt(objects, |objects|);
    return out, None;
  }

  // ------------------------------------------------------------ one batch

  datatype Batch = Batch(delivered: seq<Obj>, last: nat, backlog: Option<Backlog>, next: nat)

  predicate BatchOf(b: Batch, failure: Option<Failure>, rest: seq<Obj>, limit: nat) {
    var taken := if |rest| <= limit then rest else rest[..limit];
    var n := Sweep(taken);
    && b.delivered == taken[..n] && b.last == (if n == 0 then 0 else taken[n - 1].key)
    && b.next == (if |rest| <= limit then 0 else rest[limit].key)
    && failure == Stop(taken)
    && b.backlog == (if |rest| <= limit then Some(Measure(rest[n..])) else None)
  }

  /** The loop over the objects of one batch. */
  method DeliverPage(p: Page) returns (b: Batch, failure: Option<Failure>)
    ensures b.delivered == p.objects[..Sweep(p.objects)] && failure == Stop(p.objects) && b.next == p.next
    ensures b.last == if Sweep(p.objects) == 0 then 0 else p.objects[Sweep(p.objects) - 1].key
    ensures b.backlog == if p.next != 0 then None else Some(Measure(p.objects[Sweep(p.objects)..]))
  {
    var objects, out, last := p.objects, [], 0;
    for i := 0 to |objects|
      invariant out == objects[..i] && forall k :: 0 <= k < i ==> objects[k].fate.Delivers?
      invariant last == if i == 0 then 0 else objects[i - 1].key
    {
      if !objects[i].fate.Delivers? {
        SweepEndsAt(objects, i);
        var left := ExactReplayBacklog(objects[i..], p.next);
        return Batch(out, last, left, p.next), Some(Blocked(objects[i].key, objects[i].fate));
      }
      out, last := out + [objects[i]], objects[i].key;
    }
    SweepEndsAt(objects, |objects|);
    assert objects[|objects|..] == [];
    var left := ExactReplayBacklog([], p.next);
    return Batch(out, last, left, p.next), None;
  }

  /** Forwards at most `limit` records after the cursor. */
  method ReplayBatch(l: seq<Obj>, cursor: nat, limit: int, listed: bool) returns (b: Batch, failure: Option<Failure>)
    requires Sorted(l)
    ensures limit <= 0 ==> b == Batch([], 0, None, 0) && failure == Some(BadLimit)
    ensures limit > 0 && !listed ==> b == Batch([], 0, None, 0) && failure == Some(ListingFailed)
    ensures limit > 0 && listed ==> BatchOf(b, failure, After(l, cursor), limit)
  {
    if limit <= 0 { return Batch([], 0, None, 0), Some(BadLimit); }
    if !listed { return Batch([], 0, None, 0), Some(ListingFailed); }
    SelectTakesFirst(l, cursor, limit);
    if |After(l, cursor)| > limit { AfterIn(l, cursor, limit); }
    b, failure := DeliverPage(Select(l, cursor, limit));
  }
}
