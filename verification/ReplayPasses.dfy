/** One undisturbed pass goes on batch after batch until nothing is left beyond the cursor. */
module ReplayPasses {
  import opened ReplayRuns
  import Replay

  ghost predicate IsPath(limit: nat, path: seq<State>) {
    |path| > 0 && forall i :: 0 < i < |path| ==> Follows(limit, path[i - 1], path[i])
  }

  /** The pass never ended on the way. */
  predicate Unbroken(path: seq<State>) { forall i :: 0 <= i < |path| ==> !path[i].pass.Idle? }

  ghost function Last(path: seq<State>): State
    requires |path| > 0
  {
    path[|path| - 1]
  }

  lemma Extend(limit: nat, path: seq<State>, e: Event) returns (longer: seq<State>)
    requires IsPath(limit, path) && Unbroken(path) && Enabled(limit, Last(path), e)
    ensures IsPath(limit, longer) && longer[0] == path[0] && Last(longer) == Step(Last(path), e)
    ensures longer[..|longer| - 1] == path
    ensures !Step(Last(path), e).pass.Idle? ==> Unbroken(longer)
  {
    longer := path + [Step(Last(path), e)];
    assert Follows(limit, Last(path), longer[|path|]);
    forall i | 0 < i < |longer| ensures Follows(limit, longer[i - 1], longer[i]) {
      if i < |path| { assert Follows(limit, path[i - 1], path[i]); }
    }
  }

  lemma {:induction false} DeliversAll(limit: nat, path: seq<State>) returns (longer: seq<State>)
    requires IsPath(limit, path) && Unbroken(path) && Last(path).pass.Delivering? && !Last(path).pass.failed
    requires forall i :: 0 <= i < |Last(path).pass.queue| ==> Last(path).pass.queue[i] in Last(path).ledger
    ensures IsPath(limit, longer) && Unbroken(longer) && longer[0] == path[0]
    ensures var s, t, q := Last(path), Last(longer), Last(path).pass.queue;
      && t.pass.Delivering?
      && t == s.(delivered := t.delivered, pass := Delivering(s.pass.persisted, [], t.pass.last, false))
      && t.pass.last == (if |q| == 0 then s.pass.last else q[|q| - 1])
      && t.delivered == s.delivered + set k | k in q
    decreases |Last(path).pass.queue|
  {
    var s, q := Last(path), Last(path).pass.queue;
    if |q| == 0 {
      longer := path;
      assert s.delivered == s.delivered + set k | k in q;
    } else {
      var next := Extend(limit, path, Deliver(Done));
      longer := DeliversAll(limit, next);
      assert (set k | k in q) == {q[0]} + set k | k in q[1..];
    }
  }

  /** The listing holds exactly what the ledger does. */
  ghost predicate Lists(l: seq<Replay.Obj>, ledger: set<nat>) {
    Replay.Sorted(l) && ledger == Elements(KeysOf(l))
  }

  ghost predicate Between(s: State, t: State) {
    t.ledger == s.ledger && t.high == s.high && s.delivered <= t.delivered && s.cursor <= t.cursor
  }

  /** One batch: the first keys beyond the cursor are delivered and the cursor is moved to the last of them. */
  lemma {:induction false} DeliversBatch(limit: nat, path: seq<State>, page: seq<nat>) returns (longer: seq<State>)
    requires IsPath(limit, path) && Unbroken(path) && Last(path).pass == Loaded(Last(path).cursor)
    requires |page| > 0 && IsPage(Last(path).ledger, Last(path).cursor, limit, page)
    ensures IsPath(limit, longer) && Unbroken(longer) && longer[0] == path[0] && Between(Last(path), Last(longer))
    ensures Last(longer).pass == Loaded(Last(longer).cursor) && Last(longer).cursor == page[|page| - 1]
    ensures forall k :: k in page ==> k in Last(longer).delivered
  {
    longer := Extend(limit, path, ListPage(page));
    longer := DeliversAll(limit, longer);
    longer := Extend(limit, longer, Save(Done));
  }

  /** From a loaded cursor the pass, meeting no fault, delivers everything beyond it and ends with the cursor at
      or past every record, without loading it again. */
  lemma {:induction false} PassCatchesUp(limit: nat, path: seq<State>, l: seq<Replay.Obj>) returns (longer: seq<State>)
    requires limit >= 1 && IsPath(limit, path) && Unbroken(path) && Last(path).pass == Loaded(Last(path).cursor)
    requires Lists(l, Last(path).ledger)
    ensures IsPath(limit, longer) && longer[0] == path[0] && Unbroken(longer[..|longer| - 1])
    ensures Between(Last(path), Last(longer)) && Last(longer).pass.Idle?
    ensures forall k :: k in Last(path).ledger ==> k <= Last(longer).cursor
    ensures forall k :: k in Last(path).ledger && k > Last(path).cursor ==> k in Last(longer).delivered
    decreases |Replay.After(l, Last(path).cursor)|
  {
    var s := Last(path);
    var page := KeysOf(Replay.Select(l, s.cursor, limit).objects);
    SelectIsPage(l, s.cursor, limit);
    if |page| == 0 {
      longer := Extend(limit, path, End);
    } else {
      var next := DeliversBatch(limit, path, page);
      FewerLeft(l, s.cursor, page[|page| - 1]);
      longer := PassCatchesUp(limit, next, l);
    }
  }

  lemma {:induction false} FewerLeft(l: seq<Replay.Obj>, cursor: nat, later: nat)
    requires Replay.Sorted(l) && cursor < later && later in Elements(KeysOf(l))
    ensures |Replay.After(l, later)| < |Replay.After(l, cursor)|
  {
    var m := AfterIsSuffix(l, cursor);
    var n := AfterIsSuffix(l, later);
    var i :| 0 <= i < |l| && KeysOf(l)[i] == later;
    assert m <= i < n;
  }
}
