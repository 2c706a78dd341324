/**
 Replay over any sequence of passes: records arrive in key order and may later be removed, deliveries
 and cursor saves fail with or without effect, and a pass may stop anywhere.
 */
module ReplayRuns {
  import Replay

  datatype Pass =
    | Idle
    | Loaded(persisted: nat)
    | Delivering(persisted: nat, queue: seq<nat>, last: nat, failed: bool)

  datatype State = State(ledger: set<nat>, high: nat, cursor: nat, delivered: set<nat>, pass: Pass)

  datatype Effect = Done | FailedBefore | FailedAfter

  datatype Event =
    | Append(key: nat)
    | Remove(key: nat)
    | Load
    | ListPage(page: seq<nat>)
    | Deliver(effect: Effect)
    | Save(effect: Effect)
    | End

  predicate Ascending(s: seq<nat>) { forall i, j :: 0 <= i < j < |s| ==> s[i] < s[j] }

  function LastOf(s: seq<nat>): int { if |s| == 0 then -1 else s[|s| - 1] }

  /** The first `limit` keys of the ledger beyond the cursor, in order. */
  ghost predicate IsPage(ledger: set<nat>, cursor: nat, limit: nat, page: seq<nat>) {
    && |page| <= limit && Ascending(page)
    && (forall i :: 0 <= i < |page| ==> page[i] in ledger && cursor < page[i])
    && (forall k :: k in ledger && cursor < k && (|page| < limit || k <= LastOf(page)) ==> k in page)
  }

  ghost predicate Enabled(limit: nat, s: State, e: Event) {
    match e
    case Append(k) => s.high < k
    case Remove(_) => true
    case Load => s.pass.Idle?
    case ListPage(page) => s.pass.Loaded? && IsPage(s.ledger, s.pass.persisted, limit, page)
    case Deliver(f) =>
      && s.pass.Delivering? && !s.pass.failed && |s.pass.queue| > 0
      && (!f.FailedBefore? ==> s.pass.queue[0] in s.ledger)
    case Save(_) => s.pass.Delivering? && (s.pass.failed || |s.pass.queue| == 0) && s.pass.last != 0
    case End => true
  }

  function Step(s: State, e: Event): State
    requires e.Deliver? ==> s.pass.Delivering? && |s.pass.queue| > 0
    requires e.Save? ==> s.pass.Delivering?
  {
    match e
    case Append(k) => s.(ledger := s.ledger + {k}, high := k)
    case Remove(k) => s.(ledger := s.ledger - {k})
    case Load => s.(pass := Loaded(s.cursor))
    case ListPage(page) => s.(pass := Delivering(if s.pass.Loaded? then s.pass.persisted else 0, page, 0, false))
    case Deliver(f) =>
      var k := s.pass.queue[0];
      if f.Done? then s.(delivered := s.delivered + {k}, pass := s.pass.(queue := s.pass.queue[1..], last := k))
      else s.(delivered := if f.FailedAfter? then s.delivered + {k} else s.delivered, pass := s.pass.(failed := true))
    case Save(f) =>
      s.(cursor := if f.FailedBefore? then s.cursor else s.pass.last,
         pass := if f.Done? && !s.pass.failed then Loaded(s.pass.last) else Idle)
    case End => s.(pass := Idle)
  }

  ghost predicate Follows(limit: nat, s: State, t: State) { exists e :: Enabled(limit, s, e) && t == Step(s, e) }

  ghost predicate IsRun(limit: nat, run: seq<State>) {
    && |run| > 0 && run[0] == State({}, 0, 0, {}, Idle)
    && forall i :: 0 < i < |run| ==> Follows(limit, run[i - 1], run[i])
  }

  // ------------------------------------------------------------ invariant

  ghost function Span(ledger: set<nat>, a: nat, b: nat): set<nat> { set k | k in ledger && a < k <= b }

  /** Everything in the ledger up to b has been delivered. */
  ghost predicate Covered(ledger: set<nat>, delivered: set<nat>, b: nat) {
    forall k :: k in ledger && k <= b ==> k in delivered
  }

  /** No more than one batch separates k from the cursor. */
  ghost predicate Near(limit: nat, ledger: set<nat>, cursor: nat, k: nat) { |Span(ledger, cursor, k)| <= limit }

  ghost predicate AllNear(limit: nat, ledger: set<nat>, cursor: nat, keys: set<nat>) {
    forall d :: d in keys && cursor < d ==> Near(limit, ledger, cursor, d)
  }

  /** The rest of a batch, from base on: nothing in the ledger is left out of it. */
  ghost predicate Pending(limit: nat, ledger: set<nat>, high: nat, cursor: nat, base: nat, queue: seq<nat>) {
    && Ascending(queue)
    && (forall i :: 0 <= i < |queue| ==> base < queue[i] <= high && Near(limit, ledger, cursor, queue[i]))
    && (|queue| > 0 ==> forall k :: k in ledger && base < k <= queue[|queue| - 1] ==> k in queue)
  }

  ghost predicate PassInv(limit: nat, s: State) {
    match s.pass
    case Idle => true
    case Loaded(p) => p == s.cursor
    case Delivering(p, queue, last, _) =>
      var base := if last != 0 then last else s.cursor;
      && p == s.cursor && Covered(s.ledger, s.delivered, base) && s.cursor <= base <= s.high
      && Pending(limit, s.ledger, s.high, s.cursor, base, queue)
  }

  ghost predicate Inv(limit: nat, s: State) {
    && (forall k :: k in s.ledger + s.delivered ==> k <= s.high) && s.cursor <= s.high
    && Covered(s.ledger, s.delivered, s.cursor)
    && AllNear(limit, s.ledger, s.cursor, s.delivered)
    && PassInv(limit, s)
  }

  lemma Fewer(a: set<nat>, b: set<nat>)
    requires a <= b
    ensures |a| <= |b|
  {
    if a != b {
      var x :| x in b && x !in a;
      Fewer(a, b - {x});
    }
  }

  ghost function Elements(s: seq<nat>): set<nat> { set k | k in s }

  lemma {:induction false} ElementsBounded(s: seq<nat>)
    ensures |Elements(s)| <= |s|
  {
    if |s| > 0 {
      var front := s[..|s| - 1];
      ElementsBounded(front);
      assert Elements(s) == Elements(front) + {s[|s| - 1]} by {
        forall k ensures k in Elements(s) <==> k in Elements(front) + {s[|s| - 1]} {
          assert s == front + [s[|s| - 1]];
        }
      }
    }
  }

  lemma PageIsPending(limit: nat, ledger: set<nat>, high: nat, cursor: nat, page: seq<nat>)
    requires IsPage(ledger, cursor, limit, page) && forall k :: k in ledger ==> k <= high
    ensures Pending(limit, ledger, high, cursor, cursor, page)
  {
    ElementsBounded(page);
    forall i | 0 <= i < |page| ensures Near(limit, ledger, cursor, page[i]) {
      Fewer(Span(ledger, cursor, page[i]), Elements(page));
    }
  }

  lemma NextPending(limit: nat, ledger: set<nat>, high: nat, cursor: nat, base: nat, queue: seq<nat>)
    requires Pending(limit, ledger, high, cursor, base, queue) && |queue| > 0
    ensures Pending(limit, ledger, high, cursor, queue[0], queue[1..])
    ensures forall k :: k in ledger && base < k <= queue[0] ==> k == queue[0]
  {
    forall k | k in ledger && base < k <= queue[0] ensures k == queue[0] {
      assert k in queue;
    }
    if |queue| > 1 {
      forall k | k in ledger && queue[0] < k <= queue[|queue| - 1] ensures k in queue[1..] {
        assert k in queue && queue == [queue[0]] + queue[1..];
      }
    }
  }

  lemma DeliverKeeps(limit: nat, s: State, e: Event)
    requires Inv(limit, s) && Enabled(limit, s, e) && e.Deliver?
    ensures Inv(limit, Step(s, e))
  {
    NextPending(limit, s.ledger, s.high, s.cursor, if s.pass.last != 0 then s.pass.last else s.cursor, s.pass.queue);
    assert Near(limit, s.ledger, s.cursor, s.pass.queue[0]);
  }

  lemma SaveKeeps(limit: nat, s: State, e: Event)
    requires Inv(limit, s) && Enabled(limit, s, e) && e.Save?
    ensures Inv(limit, Step(s, e)) && s.cursor <= Step(s, e).cursor
  {
    var t := Step(s, e);
    forall d | d in t.delivered && t.cursor < d ensures Near(limit, t.ledger, t.cursor, d) {
      assert Near(limit, s.ledger, s.cursor, d);
      Fewer(Span(t.ledger, t.cursor, d), Span(s.ledger, s.cursor, d));
    }
  }

  lemma NearOnward(limit: nat, a: set<nat>, b: set<nat>, high: nat, cursor: nat, k: nat)
    requires Near(limit, a, cursor, k) && k <= high && forall j :: j in b && j <= high ==> j in a
    ensures Near(limit, b, cursor, k)
  {
    Fewer(Span(b, cursor, k), Span(a, cursor, k));
  }

  lemma PendingOnward(limit: nat, a: set<nat>, b: set<nat>, high: nat, higher: nat, cursor: nat, base: nat,
                      queue: seq<nat>)
    requires Pending(limit, a, high, cursor, base, queue) && high <= higher
    requires forall j :: j in b && j <= high ==> j in a
    ensures Pending(limit, b, higher, cursor, base, queue)
  {
    forall i | 0 <= i < |queue| ensures Near(limit, b, cursor, queue[i]) {
      NearOnward(limit, a, b, high, cursor, queue[i]);
    }
  }

  lemma LedgerKeeps(limit: nat, s: State, e: Event)
    requires Inv(limit, s) && Enabled(limit, s, e) && (e.Append? || e.Remove?)
    ensures Inv(limit, Step(s, e))
  {
    var t := Step(s, e);
    forall d | d in t.delivered && t.cursor < d ensures Near(limit, t.ledger, t.cursor, d) {
      NearOnward(limit, s.ledger, t.ledger, s.high, s.cursor, d);
    }
    if s.pass.Delivering? {
      PendingOnward(limit, s.ledger, t.ledger, s.high, t.high, s.cursor,
                    if s.pass.last != 0 then s.pass.last else s.cursor, s.pass.queue);
    }
  }

  lemma StepKeeps(limit: nat, s: State, e: Event)
    requires Inv(limit, s) && Enabled(limit, s, e)
    ensures Inv(limit, Step(s, e)) && s.cursor <= Step(s, e).cursor
  {
    match e
    case Append(_) => LedgerKeeps(limit, s, e);
    case Remove(_) => LedgerKeeps(limit, s, e);
    case ListPage(page) => PageIsPending(limit, s.ledger, s.high, s.cursor, page);
    case Deliver(_) => DeliverKeeps(limit, s, e);
    case Save(_) => SaveKeeps(limit, s, e);
    case Load =>
    case End =>
  }

  lemma FollowsKeeps(limit: nat, s: State, t: State)
    requires Inv(limit, s) && Follows(limit, s, t)
    ensures Inv(limit, t) && s.cursor <= t.cursor
  {
    var e :| Enabled(limit, s, e) && t == Step(s, e);
    StepKeeps(limit, s, e);
  }

  lemma {:induction false} RunKeepsInv(limit: nat, run: seq<State>, i: nat)
    requires IsRun(limit, run) && i < |run|
    ensures Inv(limit, run[i])
  {
    if i > 0 {
      RunKeepsInv(limit, run, i - 1);
      FollowsKeeps(limit, run[i - 1], run[i]);
    }
  }

  // ------------------------------------------------------------ results

  /** Every record at or below the persisted cursor has been delivered. */
  lemma NothingSkipped(limit: nat, run: seq<State>, i: nat, k: nat)
    requires IsRun(limit, run) && i < |run| && k in run[i].ledger && k <= run[i].cursor
    ensures k in run[i].delivered
  {
    RunKeepsInv(limit, run, i);
  }

  lemma {:induction false} CursorNeverMovesBack(limit: nat, run: seq<State>, i: nat, j: nat)
    requires IsRun(limit, run) && i <= j < |run|
    ensures run[i].cursor <= run[j].cursor
    decreases j
  {
    if i < j {
      CursorNeverMovesBack(limit, run, i, j - 1);
      RunKeepsInv(limit, run, j - 1);
      FollowsKeeps(limit, run[j - 1], run[j]);
    }
  }

  lemma {:induction false} Greatest(s: set<nat>) returns (m: nat)
    requires s != {}
    ensures m in s && forall k :: k in s ==> k <= m
  {
    m :| m in s;
    if s != {m} {
      assert forall k :: k in s ==> k == m || k in s - {m};
      var n := Greatest(s - {m});
      if n > m { m := n; }
    }
  }

  ghost function Repeated(s: State): set<nat> { set k | k in s.ledger && k in s.delivered && s.cursor < k }

  /** At most one batch of delivered records lies beyond the cursor. */
  lemma AtMostOneBatchRepeated(limit: nat, run: seq<State>, i: nat)
    requires IsRun(limit, run) && i < |run|
    ensures |Repeated(run[i])| <= limit
  {
    RunKeepsInv(limit, run, i);
    var s := run[i];
    if Repeated(s) != {} {
      var m := Greatest(Repeated(s));
      assert Near(limit, s.ledger, s.cursor, m);
      Fewer(Repeated(s), Span(s.ledger, s.cursor, m));
    }
  }

  // ------------------------------------------------------------ the batch is that page

  ghost function KeysOf(l: seq<Replay.Obj>): seq<nat> { seq(|l|, i requires 0 <= i < |l| => l[i].key) }

  lemma {:induction false} AfterIsSuffix(l: seq<Replay.Obj>, cursor: nat) returns (n: nat)
    requires Replay.Sorted(l)
    ensures n <= |l| && Replay.After(l, cursor) == l[n..]
    ensures (forall i :: 0 <= i < n ==> l[i].key <= cursor) && (forall i :: n <= i < |l| ==> l[i].key > cursor)
  {
    n := 0;
    if |l| > 0 && l[0].key <= cursor {
      var m := AfterIsSuffix(l[1..], cursor);
      n := m + 1;
      assert forall i :: 1 <= i < |l| ==> l[i] == l[1..][i - 1];
    }
  }

  lemma SliceIsPage(l: seq<Replay.Obj>, n: nat, m: nat, cursor: nat, limit: nat)
    requires Replay.Sorted(l) && n + m <= |l| && 0 < limit && m <= limit && (m < limit ==> n + m == |l|)
    requires (forall i :: 0 <= i < n ==> l[i].key <= cursor) && (forall i :: n <= i < |l| ==> l[i].key > cursor)
    ensures IsPage(Elements(KeysOf(l)), cursor, limit, KeysOf(l[n..n + m]))
  {
    var page, keys := KeysOf(l[n..n + m]), KeysOf(l);
    assert forall i :: 0 <= i < m ==> page[i] == keys[n + i];
    forall k | k in Elements(keys) && cursor < k && (m < limit || k <= LastOf(page)) ensures k in page {
      var j :| 0 <= j < |l| && keys[j] == k;
      assert page[j - n] == k;
    }
  }

  lemma SelectIsSlice(l: seq<Replay.Obj>, cursor: nat, limit: nat) returns (n: nat, m: nat)
    requires Replay.Sorted(l) && limit >= 1
    ensures n + m <= |l| && m <= limit && (m < limit ==> n + m == |l|)
    ensures (forall i :: 0 <= i < n ==> l[i].key <= cursor) && (forall i :: n <= i < |l| ==> l[i].key > cursor)
    ensures Replay.Select(l, cursor, limit).objects == l[n..n + m]
  {
    Replay.SelectTakesFirst(l, cursor, limit);
    n := AfterIsSuffix(l, cursor);
    m := if |l| - n <= limit then |l| - n else limit;
  }

  /** What a batch selects from the sorted listing is the page the runs above deliver. */
  lemma SelectIsPage(l: seq<Replay.Obj>, cursor: nat, limit: nat)
    requires Replay.Sorted(l) && limit >= 1
    ensures IsPage(Elements(KeysOf(l)), cursor, limit, KeysOf(Replay.Select(l, cursor, limit).objects))
  {
    var n, m := SelectIsSlice(l, cursor, limit);
    SliceIsPage(l, n, m, cursor, limit);
  }
}
