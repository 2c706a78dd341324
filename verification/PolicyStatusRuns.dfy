/**
 Decisions are conserved over any interleaving of recording with flushes.  The policies in `stored` are
 present in every flush; each keeps the versions its status has had, since a flush may have read an old
 one, and a write lands only on the current one.
 */
module PolicyStatusRuns {
  import opened PolicyStatus

  datatype State = State(
    stored: map<string, seq<Status>>,
    pending: Batches,
    flight: Batches,
    recorded: seq<PolicyResult>,
    twice: map<string, Counters>)

  datatype Event = Record(result: PolicyResult) | Take | Apply(uid: string, version: nat, effect: Effect)

  predicate Enabled(s: State, e: Event) {
    match e
    case Record(_) => true
    case Take => s.flight.Keys !! s.stored.Keys
    case Apply(uid, v, f) =>
      && uid in s.stored && uid in s.flight && v < |s.stored[uid]| && (!f.Fails? ==> v == |s.stored[uid]| - 1)
  }

  function Twice(m: map<string, Counters>, uid: string): Counters { if uid in m then m[uid] else ZERO }

  function Step(s: State, e: Event): State
    requires Enabled(s, e)
  {
    match e
    case Record(r) =>
      if r.policy == "" then s else s.(pending := WithRecord(s.pending, r), recorded := s.recorded + [r])
    case Take => s.(flight := s.pending, pending := map[])
    case Apply(uid, v, f) =>
      var read, batch := s.stored[uid][v], s.flight[uid];
      var desired := Applied(read, batch);
      if desired == read then s.(flight := s.flight - {uid})
      else
        s.(stored := if f.Fails? then s.stored else s.stored[uid := s.stored[uid] + [desired]],
           pending := if f.Lands? then s.pending else WithRestored(s.pending, uid, batch),
           flight := s.flight - {uid},
           twice := if f.LandsUnconfirmed? then s.twice[uid := Plus(Twice(s.twice, uid), batch.counters)] else s.twice)
  }

  ghost predicate Follows(s: State, t: State) { exists e :: Enabled(s, e) && t == Step(s, e) }

  predicate Init(s: State) {
    && s.pending == map[] && s.flight == map[] && s.recorded == [] && s.twice == map[]
    && "" !in s.stored && forall uid :: uid in s.stored ==> |s.stored[uid]| == 1
  }

  ghost predicate IsRun(run: seq<State>) {
    |run| > 0 && Init(run[0]) && forall i :: 0 < i < |run| ==> Follows(run[i - 1], run[i])
  }

  // ------------------------------------------------------------ what was recorded

  function Tally(rs: seq<PolicyResult>, uid: string): Counters {
    if |rs| == 0 then ZERO
    else
      var r := rs[|rs| - 1];
      if r.policy == uid then Plus(Tally(rs[..|rs| - 1], uid), Amount(r.outcome)) else Tally(rs[..|rs| - 1], uid)
  }

  function Latest(rs: seq<PolicyResult>, uid: string): nat {
    if |rs| == 0 then 0
    else
      var r := rs[|rs| - 1];
      if r.policy == uid then Max(Latest(rs[..|rs| - 1], uid), r.trigger) else Latest(rs[..|rs| - 1], uid)
  }

  /** The latest trigger recorded for the policy; the zero time if there is none. */
  lemma {:induction false} LatestMeans(rs: seq<PolicyResult>, uid: string)
    ensures forall i :: 0 <= i < |rs| && rs[i].policy == uid ==> rs[i].trigger <= Latest(rs, uid)
    ensures Latest(rs, uid) == 0 || exists i :: 0 <= i < |rs| && rs[i].policy == uid && rs[i].trigger == Latest(rs, uid)
  {
    if |rs| > 0 {
      var n := |rs| - 1;
      LatestMeans(rs[..n], uid);
      if Latest(rs, uid) == Latest(rs[..n], uid) != 0 {
        var i :| 0 <= i < n && rs[..n][i].policy == uid && rs[..n][i].trigger == Latest(rs[..n], uid);
        assert rs[i].trigger == Latest(rs, uid);
      }
    }
  }

  /** A decision that points at a capture. */
  predicate Points(r: PolicyResult, uid: string) { r.policy == uid && (r.outcome.Created? || r.outcome.Duplicate?) }

  /** The capture the last such decision points at. */
  function LastNamed(rs: seq<PolicyResult>, uid: string): string {
    if |rs| == 0 then ""
    else if Points(rs[|rs| - 1], uid) then rs[|rs| - 1].capture
    else LastNamed(rs[..|rs| - 1], uid)
  }

  /** Every such decision names its capture, as the engine's do. */
  predicate Named(rs: seq<PolicyResult>, uid: string) {
    forall i :: 0 <= i < |rs| && Points(rs[i], uid) ==> rs[i].capture != ""
  }

  ghost function With(rs: seq<PolicyResult>, uid: string, o: Outcome): set<nat> {
    set i: nat | i < |rs| && rs[i].policy == uid && rs[i].outcome == o
  }

  /** Each counter of the tally is the number of results recorded with its outcome. */
  lemma {:induction false} TallyCounts(rs: seq<PolicyResult>, uid: string)
    ensures Tally(rs, uid) == Counters(|With(rs, uid, Created)|, |With(rs, uid, NotMatched)|,
                                       |With(rs, uid, Duplicate)|, |With(rs, uid, RateLimited)|,
                                       |With(rs, uid, Failed)|, |With(rs, uid, Created)|)
  {
    if |rs| > 0 {
      TallyCounts(rs[..|rs| - 1], uid);
      WithLast(rs, uid, Created);
      WithLast(rs, uid, NotMatched);
      WithLast(rs, uid, Duplicate);
      WithLast(rs, uid, RateLimited);
      WithLast(rs, uid, Failed);
    }
  }

  lemma WithLast(rs: seq<PolicyResult>, uid: string, o: Outcome)
    requires |rs| > 0
    ensures var n := |rs| - 1;
            |With(rs, uid, o)| == |With(rs[..n], uid, o)| + if rs[n].policy == uid && rs[n].outcome == o then 1 else 0
  {
    var n := |rs| - 1;
    var front := rs[..n];
    var counts := rs[n].policy == uid && rs[n].outcome == o;
    forall i: nat ensures i in With(rs, uid, o) <==> i in With(front, uid, o) || (i == n && counts) {
      if i < n { assert front[i] == rs[i]; }
    }
    if rs[n].policy == uid && rs[n].outcome == o {
      assert With(rs, uid, o) == With(front, uid, o) + {n};
    } else {
      assert With(rs, uid, o) == With(front, uid, o);
    }
  }

  // ------------------------------------------------------------ the balance of one policy

  predicate Even(c: Counters) { c.matched == c.captures }

  /** Stored, pending and in flight together are what was there at first, what was recorded since, and
      what unconfirmed writes made count twice. */
  predicate Balance(base: Status, now: Status, p: Batch, f: Batch,
                    rs: seq<PolicyResult>, uid: string, twice: Counters) {
    && Plus(Plus(now.counters, p.counters), f.counters) == Plus(Plus(base.counters, Tally(rs, uid)), twice)
    && Max(Max(now.lastTrigger, p.lastTrigger), f.lastTrigger) == Max(base.lastTrigger, Latest(rs, uid))
    && Even(p.counters) && Even(f.counters) && Counted(p) && Counted(f)
    && (Named(rs, uid) ==>
          Newer(Newer(now.lastCapture, f.lastCapture), p.lastCapture) == Newer(base.lastCapture, LastNamed(rs, uid)))
  }

  /** A batch that names a capture has counted the decision that did. */
  predicate Counted(b: Batch) {
    b.counters.matched >= 0 && b.counters.duplicate >= 0
    && (b.lastCapture != "" ==> b.counters.matched + b.counters.duplicate > 0)
  }

  /** By how much matches exceed captures. */
  function Lead(c: Counters): int { c.matched - c.captures }

  predicate Versions(vs: seq<Status>) {
    && |vs| > 0
    && (forall v :: 0 <= v < |vs| ==> vs[v].lastTrigger <= vs[|vs| - 1].lastTrigger)
    && (forall v :: 0 <= v < |vs| ==> Lead(vs[v].counters) == Lead(vs[0].counters))
  }

  predicate BalancedAt(vs: seq<Status>, p: Batch, f: Batch, rs: seq<PolicyResult>, uid: string, twice: Counters) {
    Versions(vs) && Balance(vs[0], vs[|vs| - 1], p, f, rs, uid, twice)
  }

  predicate Balanced(s: State, uid: string)
    requires uid in s.stored
  {
    BalancedAt(s.stored[uid], Pending(s.pending, uid), Pending(s.flight, uid), s.recorded, uid, Twice(s.twice, uid))
  }

  predicate Inv(s: State) { "" !in s.stored && forall uid :: uid in s.stored ==> Balanced(s, uid) }

  lemma BalanceRecord(base: Status, now: Status, p: Batch, f: Batch, rs: seq<PolicyResult>, r: PolicyResult,
                      twice: Counters)
    requires Balance(base, now, p, f, rs, r.policy, twice)
    ensures Balance(base, now, Recorded(p, r), f, rs + [r], r.policy, twice)
  {
    assert (rs + [r])[..|rs|] == rs;
    NamedBefore(rs, r, r.policy);
  }

  lemma NamedBefore(rs: seq<PolicyResult>, r: PolicyResult, uid: string)
    ensures Named(rs + [r], uid) ==> Named(rs, uid) && (Points(r, uid) ==> r.capture != "")
  {
    var all := rs + [r];
    assert all[|rs|] == r && forall i :: 0 <= i < |rs| ==> all[i] == rs[i];
  }

  lemma BalanceOther(base: Status, now: Status, p: Batch, f: Batch, rs: seq<PolicyResult>, r: PolicyResult, uid: string,
                     twice: Counters)
    requires Balance(base, now, p, f, rs, uid, twice) && r.policy != uid
    ensures Balance(base, now, p, f, rs + [r], uid, twice)
  {
    assert (rs + [r])[..|rs|] == rs;
    NamedBefore(rs, r, uid);
  }

  lemma BalanceIdle(base: Status, now: Status, read: Status, p: Batch, f: Batch, rs: seq<PolicyResult>, uid: string,
                    twice: Counters)
    requires Balance(base, now, p, f, rs, uid, twice) && Applied(read, f) == read && read.lastTrigger <= now.lastTrigger
    ensures Balance(base, now, p, EMPTY, rs, uid, twice)
  {
  }

  lemma BalanceLands(base: Status, now: Status, p: Batch, f: Batch, rs: seq<PolicyResult>, uid: string, twice: Counters)
    requires Balance(base, now, p, f, rs, uid, twice)
    ensures Balance(base, Applied(now, f), p, EMPTY, rs, uid, twice)
  {
  }

  lemma BalanceRestores(base: Status, now: Status, p: Batch, f: Batch, rs: seq<PolicyResult>, uid: string,
                        twice: Counters)
    requires Balance(base, now, p, f, rs, uid, twice)
    ensures Balance(base, now, Merge(f, p), EMPTY, rs, uid, twice)
  {
  }

  lemma BalanceUnconfirmed(base: Status, now: Status, p: Batch, f: Batch, rs: seq<PolicyResult>, uid: string,
                           twice: Counters)
    requires Balance(base, now, p, f, rs, uid, twice)
    ensures Balance(base, Applied(now, f), Merge(f, p), EMPTY, rs, uid, Plus(twice, f.counters))
  {
  }

  lemma RecordKeeps(s: State, e: Event)
    requires Inv(s) && e.Record?
    ensures Inv(Step(s, e))
  {
    var t, r := Step(s, e), e.result;
    if r.policy != "" {
      forall uid | uid in t.stored ensures Balanced(t, uid) {
        assert Balanced(s, uid);
        var vs := s.stored[uid];
        if uid == r.policy {
          BalanceRecord(vs[0], vs[|vs| - 1], Pending(s.pending, uid), Pending(s.flight, uid), s.recorded, r,
                        Twice(s.twice, uid));
        } else {
          BalanceOther(vs[0], vs[|vs| - 1], Pending(s.pending, uid), Pending(s.flight, uid), s.recorded, r, uid,
                       Twice(s.twice, uid));
        }
      }
    }
  }

  lemma TakeKeeps(s: State, e: Event)
    requires Inv(s) && Enabled(s, e) && e.Take?
    ensures Inv(Step(s, e))
  {
    forall uid | uid in s.stored ensures Balanced(Step(s, e), uid) {
      assert Balanced(s, uid);
      assert uid !in s.flight;
    }
  }

  lemma VersionsGrow(vs: seq<Status>, f: Batch)
    requires Versions(vs) && Even(f.counters)
    ensures Versions(vs + [Applied(vs[|vs| - 1], f)])
  {
  }

  /** What a write attempt does to one policy's versions, pending batch and excess. */
  predicate Turn(vs: seq<Status>, p: Batch, f: Batch, twice: Counters, v: nat, effect: Effect,
                 ws: seq<Status>, q: Batch, excess: Counters)
    requires v < |vs|
  {
    if Applied(vs[v], f) == vs[v] then ws == vs && q == p && excess == twice
    else
      match effect
      case Lands => ws == vs + [Applied(vs[v], f)] && q == p && excess == twice
      case Fails => ws == vs && (q == Merge(f, p) || (p == EMPTY && q == f)) && excess == twice
      case LandsUnconfirmed =>
        && ws == vs + [Applied(vs[v], f)] && (q == Merge(f, p) || (p == EMPTY && q == f))
        && excess == Plus(twice, f.counters)
  }

  lemma ApplyTurns(s: State, e: Event)
    requires Enabled(s, e) && e.Apply?
    ensures e.uid in Step(s, e).stored && Step(s, e).recorded == s.recorded
    ensures Pending(Step(s, e).flight, e.uid) == EMPTY
    ensures Turn(s.stored[e.uid], Pending(s.pending, e.uid), Pending(s.flight, e.uid), Twice(s.twice, e.uid),
                 e.version, e.effect,
                 Step(s, e).stored[e.uid], Pending(Step(s, e).pending, e.uid), Twice(Step(s, e).twice, e.uid))
  {
  }

  lemma BalanceEmpty(base: Status, now: Status, f: Batch, g: Batch, rs: seq<PolicyResult>, uid: string, twice: Counters)
    requires Balance(base, now, Merge(f, EMPTY), g, rs, uid, twice)
    ensures Balance(base, now, f, g, rs, uid, twice)
  {
  }

  lemma TurnBalances(vs: seq<Status>, p: Batch, f: Batch, rs: seq<PolicyResult>, uid: string, twice: Counters, v: nat,
                     effect: Effect, ws: seq<Status>, q: Batch, excess: Counters)
    requires BalancedAt(vs, p, f, rs, uid, twice) && v < |vs| && (!effect.Fails? ==> v == |vs| - 1)
    requires Turn(vs, p, f, twice, v, effect, ws, q, excess)
    ensures BalancedAt(ws, q, EMPTY, rs, uid, excess)
  {
    var now := vs[|vs| - 1];
    if Applied(vs[v], f) == vs[v] {
      BalanceIdle(vs[0], now, vs[v], p, f, rs, uid, twice);
    } else {
      VersionsGrow(vs, f);
      match effect
      case Lands => BalanceLands(vs[0], now, p, f, rs, uid, twice);
      case Fails =>
        BalanceRestores(vs[0], now, p, f, rs, uid, twice);
        if p == EMPTY { BalanceEmpty(vs[0], now, f, EMPTY, rs, uid, twice); }
      case LandsUnconfirmed =>
        BalanceUnconfirmed(vs[0], now, p, f, rs, uid, twice);
        if p == EMPTY { BalanceEmpty(vs[0], Applied(now, f), f, EMPTY, rs, uid, excess); }
    }
  }

  lemma ApplyLeavesOthers(s: State, e: Event, uid: string)
    requires Enabled(s, e) && e.Apply? && uid in s.stored && uid != e.uid
    ensures uid in Step(s, e).stored && Step(s, e).stored[uid] == s.stored[uid] && Step(s, e).recorded == s.recorded
    ensures Pending(Step(s, e).pending, uid) == Pending(s.pending, uid)
    ensures Pending(Step(s, e).flight, uid) == Pending(s.flight, uid)
    ensures Twice(Step(s, e).twice, uid) == Twice(s.twice, uid)
  {
  }

  lemma ApplyKeepsBalance(s: State, e: Event, uid: string)
    requires Inv(s) && Enabled(s, e) && e.Apply? && uid in s.stored
    ensures uid in Step(s, e).stored && Balanced(Step(s, e), uid)
  {
    var t := Step(s, e);
    assert Balanced(s, uid);
    if uid == e.uid {
      ApplyTurns(s, e);
      TurnBalances(s.stored[uid], Pending(s.pending, uid), Pending(s.flight, uid), s.recorded, uid, Twice(s.twice, uid),
                   e.version, e.effect, t.stored[uid], Pending(t.pending, uid), Twice(t.twice, uid));
    } else {
      ApplyLeavesOthers(s, e, uid);
    }
  }

  lemma ApplyKeeps(s: State, e: Event)
    requires Inv(s) && Enabled(s, e) && e.Apply?
    ensures Inv(Step(s, e))
  {
    var t := Step(s, e);
    forall uid | uid in t.stored ensures Balanced(t, uid) {
      ApplyKeepsBalance(s, e, uid);
    }
  }

  /** Versions are only ever added. */
  predicate Extends(a: map<string, seq<Status>>, b: map<string, seq<Status>>) {
    a.Keys == b.Keys && forall uid :: uid in a ==> a[uid] <= b[uid]
  }

  lemma StepExtends(s: State, e: Event)
    requires Enabled(s, e)
    ensures Extends(s.stored, Step(s, e).stored)
  {
  }

  lemma StepKeeps(s: State, e: Event)
    requires Inv(s) && Enabled(s, e)
    ensures Inv(Step(s, e))
  {
    match e
    case Record(_) => RecordKeeps(s, e);
    case Take => TakeKeeps(s, e);
    case Apply(_, _, _) => ApplyKeeps(s, e);
  }

  lemma FollowsKeeps(s: State, t: State)
    requires Inv(s) && Follows(s, t)
    ensures Inv(t) && Extends(s.stored, t.stored)
  {
    var e :| Enabled(s, e) && t == Step(s, e);
    StepKeeps(s, e);
    StepExtends(s, e);
  }

  lemma {:induction false} RunKeepsInv(run: seq<State>, i: nat)
    requires IsRun(run) && i < |run|
    ensures Inv(run[i]) && Extends(run[0].stored, run[i].stored)
  {
    if i > 0 {
      RunKeepsInv(run, i - 1);
      FollowsKeeps(run[i - 1], run[i]);
    }
  }

  // ------------------------------------------------------------ results

  function Stored(s: State, uid: string): Status
    requires uid in s.stored && |s.stored[uid]| > 0
  {
    s.stored[uid][|s.stored[uid]| - 1]
  }

  /** Nothing recorded is lost, and nothing is counted twice except what an unconfirmed write stored. */
  lemma {:induction false} DecisionsAreConserved(run: seq<State>, i: nat, uid: string)
    requires IsRun(run) && i < |run| && uid in run[0].stored
    ensures uid in run[i].stored && |run[i].stored[uid]| > 0
    ensures var s, first := run[i], run[0].stored[uid][0];
      Plus(Plus(Stored(s, uid).counters, Pending(s.pending, uid).counters), Pending(s.flight, uid).counters)
      == Plus(Plus(first.counters, Tally(s.recorded, uid)), Twice(s.twice, uid))
  {
    RunKeepsInv(run, i);
    assert Balanced(run[i], uid);
  }

  /** Matched stays equal to the total of captures, whatever writes failed or went unconfirmed. */
  lemma MatchedEqualsCaptures(run: seq<State>, i: nat, uid: string, v: nat)
    requires IsRun(run) && i < |run| && uid in run[0].stored && Even(run[0].stored[uid][0].counters)
    requires uid in run[i].stored && v < |run[i].stored[uid]|
    ensures Even(run[i].stored[uid][v].counters)
  {
    RunKeepsInv(run, i);
    assert Balanced(run[i], uid);
  }

  /** Once everything is flushed, the stored trigger time is the latest ever recorded. */
  lemma {:induction false} LastTriggerIsLatest(run: seq<State>, i: nat, uid: string)
    requires IsRun(run) && i < |run| && uid in run[0].stored
    requires uid !in run[i].pending && uid !in run[i].flight
    ensures uid in run[i].stored && |run[i].stored[uid]| > 0
    ensures Stored(run[i], uid).lastTrigger == Max(run[0].stored[uid][0].lastTrigger, Latest(run[i].recorded, uid))
  {
    RunKeepsInv(run, i);
    assert Balanced(run[i], uid);
  }

  /** And the capture it refers to is the one the last decision pointed at. */
  lemma {:induction false} LastCaptureIsLast(run: seq<State>, i: nat, uid: string)
    requires IsRun(run) && i < |run| && uid in run[0].stored && Named(run[i].recorded, uid)
    requires uid !in run[i].pending && uid !in run[i].flight
    ensures uid in run[i].stored && |run[i].stored[uid]| > 0
    ensures Stored(run[i], uid).lastCapture
            == Newer(run[0].stored[uid][0].lastCapture, LastNamed(run[i].recorded, uid))
  {
    RunKeepsInv(run, i);
    assert Balanced(run[i], uid);
  }

  /** That decision: the last one of the policy that created a capture or met one. */
  lemma {:induction false} LastNamedMeans(rs: seq<PolicyResult>, uid: string)
    ensures if exists i :: 0 <= i < |rs| && Points(rs[i], uid)
            then exists i :: 0 <= i < |rs| && Points(rs[i], uid) && LastNamed(rs, uid) == rs[i].capture
                             && forall k :: i < k < |rs| ==> !Points(rs[k], uid)
            else LastNamed(rs, uid) == ""
  {
    if |rs| > 0 {
      var n := |rs| - 1;
      if !Points(rs[n], uid) {
        LastNamedMeans(rs[..n], uid);
        if i :| 0 <= i < |rs| && Points(rs[i], uid) {
          assert Points(rs[..n][i], uid);
          var j :| 0 <= j < n && Points(rs[..n][j], uid) && LastNamed(rs[..n], uid) == rs[..n][j].capture
                   && forall k :: j < k < n ==> !Points(rs[..n][k], uid);
          assert forall k :: j < k < n ==> rs[..n][k] == rs[k];
          assert Points(rs[j], uid) && LastNamed(rs, uid) == rs[j].capture;
        }
      }
    }
  }

  predicate Inflated(s: State, t: State, r: PolicyResult) {
    && r.policy in s.stored && r.policy in t.stored && |s.stored[r.policy]| > 0 && |t.stored[r.policy]| > 0
    && s.recorded == [] && t.recorded == [r]
    && Stored(t, r.policy).counters.captures == Stored(s, r.policy).counters.captures + 2
  }

  lemma Extend(run: seq<State>, e: Event) returns (longer: seq<State>)
    requires IsRun(run) && Enabled(run[|run| - 1], e)
    ensures IsRun(longer) && longer[0] == run[0] && longer[|longer| - 1] == Step(run[|run| - 1], e)
  {
    longer := run + [Step(run[|run| - 1], e)];
    assert Follows(run[|run| - 1], longer[|run|]);
    forall i | 0 < i < |longer| ensures Follows(longer[i - 1], longer[i]) {
      if i < |run| { assert Follows(run[i - 1], run[i]); }
    }
  }

  /** Where one batch of one policy is, and how many captures its status reports. */
  predicate At(s: State, u: string, captures: int, b: Batch, pending: bool, flight: bool) {
    && u in s.stored && |s.stored[u]| > 0 && Stored(s, u).counters.captures == captures
    && (forall k :: k in s.pending ==> k == u) && (forall k :: k in s.flight ==> k == u)
    && (if pending then u in s.pending && s.pending[u] == b else u !in s.pending)
    && (if flight then u in s.flight && s.flight[u] == b else u !in s.flight)
  }

  lemma FlushOnce(run: seq<State>, u: string, captures: int, b: Batch, f: Effect) returns (longer: seq<State>)
    requires IsRun(run) && At(run[|run| - 1], u, captures, b, true, false) && b.counters.captures == 1 && !f.Fails?
    ensures IsRun(longer) && longer[0] == run[0] && longer[|longer| - 1].recorded == run[|run| - 1].recorded
    ensures At(longer[|longer| - 1], u, captures + 1, b, f.LandsUnconfirmed?, false)
  {
    longer := Extend(run, Take);
    assert At(longer[|longer| - 1], u, captures, b, false, true);
    longer := Extend(longer, Apply(u, |longer[|longer| - 1].stored[u]| - 1, f));
  }

  lemma StartRun(s: State) returns (run: seq<State>)
    requires Init(s)
    ensures IsRun(run) && run[0] == s == run[|run| - 1]
  {
    run := [s];
  }

  lemma RecordOnce(r: PolicyResult, s: State)
    requires r.policy != "" && Init(s) && r.policy in s.stored
    ensures Step(s, Record(r)).recorded == [r]
    ensures At(Step(s, Record(r)), r.policy, Stored(s, r.policy).counters.captures, Recorded(EMPTY, r), true, false)
  {
    assert r.policy in Step(s, Record(r)).pending;
    assert Step(s, Record(r)).pending[r.policy] == Recorded(EMPTY, r);
  }

  lemma InflatedBy(r: PolicyResult, s: State, t: State)
    requires Init(s) && r.policy in s.stored && t.recorded == [r]
    requires At(t, r.policy, Stored(s, r.policy).counters.captures + 2, Recorded(EMPTY, r), false, false)
    ensures Inflated(s, t, r)
  {
  }

  lemma FlushTwice(run: seq<State>, u: string, captures: int, b: Batch) returns (longer: seq<State>)
    requires IsRun(run) && At(run[|run| - 1], u, captures, b, true, false) && b.counters.captures == 1
    ensures IsRun(longer) && longer[0] == run[0] && longer[|longer| - 1].recorded == run[|run| - 1].recorded
    ensures At(longer[|longer| - 1], u, captures + 2, b, false, false)
  {
    longer := FlushOnce(run, u, captures, b, LandsUnconfirmed);
    longer := FlushOnce(longer, u, captures + 1, b, Lands);
  }

  lemma DoubleRun(r: PolicyResult, s: State, b: Batch) returns (run: seq<State>)
    requires r.policy != "" && Init(s) && r.policy in s.stored && b == Recorded(EMPTY, r) && b.counters.captures == 1
    ensures IsRun(run) && run[0] == s && run[|run| - 1].recorded == [r]
    ensures At(run[|run| - 1], r.policy, Stored(s, r.policy).counters.captures + 2, b, false, false)
  {
    run := StartRun(s);
    RecordOnce(r, s);
    run := Extend(run, Record(r));
    run := FlushTwice(run, r.policy, Stored(s, r.policy).counters.captures, b);
  }

  /** An unconfirmed write does make its batch count twice: one capture recorded, two reported. */
  lemma UnconfirmedCountsTwice(r: PolicyResult, s: State)
    requires r.policy != "" && Amount(r.outcome).captures == 1 && Init(s) && r.policy in s.stored
    ensures exists run: seq<State> :: IsRun(run) && run[0] == s && Inflated(s, run[|run| - 1], r)
  {
    var run := DoubleRun(r, s, Recorded(EMPTY, r));
    InflatedBy(r, s, run[|run| - 1]);
  }
}
