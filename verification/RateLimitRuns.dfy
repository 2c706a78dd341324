/**
 The hourly limit over whole runs.  Each policy is evaluated by one worker at a time, which lists, checks
 and later creates; workers restart; policies interleave; a policy's limit may change between
 evaluations.  Creation stamps are the clock cut to whole seconds.  Listings show every capture, and none
 disappears before it is an hour old.
 */
module RateLimitRuns {
  import opened Options
  import opened CaptureState
  import opened RateLimit
  import opened Units

  const MAX_PER_HOUR: int := 100

  /** A capture, the limit in force when it was requested, and whether it still exists. */
  datatype Entry = Entry(job: Job, limit: int, listed: bool)

  datatype Passed = Passed(limit: int, at: nat)

  datatype State = State(now: nat, entries: seq<Entry>, passed: map<string, Passed>)

  datatype Event =
    | Tick(d: nat)
    | Check(uid: string, limit: int)
    | Create(uid: string)
    | Abandon(uid: string)
    | Restart
    | Progress(entry: nat, requested: bool, phase: Phase)
    | Delete(entry: nat)

  function Listing(es: seq<Entry>): seq<Job> {
    if |es| == 0 then []
    else Listing(es[..|es| - 1]) + if es[|es| - 1].listed then [es[|es| - 1].job] else []
  }

  function Stamp(now: nat): nat { now / SECOND * SECOND }

  predicate Enabled(s: State, e: Event) {
    match e
    case Tick(_) => true
    case Check(uid, limit) => uid !in s.passed && 1 <= limit <= MAX_PER_HOUR
    case Create(uid) => uid in s.passed
    case Abandon(_) => true
    case Restart => true
    case Progress(i, _, _) => i < |s.entries|
    case Delete(i) => i < |s.entries| && RequestedAt(s.entries[i].job) <= s.now - HOUR
  }

  /** The controller stamps the request time from the creation time, and the phase moves on. */
  function Progressed(j: Job, requested: bool, phase: Phase): Job {
    j.(requested := if requested && j.requested.None? then Some(j.created) else j.requested, phase := phase)
  }

  function Step(s: State, e: Event): State
    requires Enabled(s, e)
  {
    match e
    case Tick(d) => s.(now := s.now + d)
    case Check(uid, limit) =>
      if LimitReached(Summary(Listing(s.entries), uid, s.now), limit) then s
      else s.(passed := s.passed[uid := Passed(limit, s.now)])
    case Create(uid) =>
      s.(entries := s.entries + [Entry(Job(Some(uid), None, Stamp(s.now), NoPhase), s.passed[uid].limit, true)],
         passed := s.passed - {uid})
    case Abandon(uid) => s.(passed := s.passed - {uid})
    case Restart => s.(passed := map[])
    case Progress(i, requested, phase) =>
      s.(entries := s.entries[i := s.entries[i].(job := Progressed(s.entries[i].job, requested, phase))])
    case Delete(i) => s.(entries := s.entries[i := s.entries[i].(listed := false)])
  }

  ghost predicate Follows(s: State, t: State) { exists e :: Enabled(s, e) && t == Step(s, e) }

  ghost predicate IsRun(run: seq<State>) {
    && |run| > 0 && run[0].entries == [] && run[0].passed == map[]
    && forall i :: 0 < i < |run| ==> Follows(run[i - 1], run[i])
  }

  // ------------------------------------------------------------ counting

  function Policy(e: Entry): Option<string> { e.job.policy }

  /** Captures of a policy stamped in (after, upto]. */
  function Within(es: seq<Entry>, uid: string, after: int, upto: int): nat {
    if |es| == 0 then 0
    else
      var e := es[|es| - 1];
      Within(es[..|es| - 1], uid, after, upto)
      + if Policy(e) == Some(uid) && after < e.job.created <= upto then 1 else 0
  }

  lemma {:induction false} WithinMonotone(es: seq<Entry>, uid: string, a: int, b: int, c: int, d: int)
    requires forall i :: 0 <= i < |es| && a < es[i].job.created <= b ==> c < es[i].job.created <= d
    ensures Within(es, uid, a, b) <= Within(es, uid, c, d)
  {
    if |es| > 0 { WithinMonotone(es[..|es| - 1], uid, a, b, c, d); }
  }

  predicate SameStamps(es: seq<Entry>, fs: seq<Entry>) {
    && |es| == |fs|
    && forall i :: 0 <= i < |es| ==> Policy(es[i]) == Policy(fs[i]) && es[i].job.created == fs[i].job.created
  }

  lemma {:induction false} WithinSame(es: seq<Entry>, fs: seq<Entry>, uid: string, a: int, b: int)
    requires SameStamps(es, fs)
    ensures Within(es, uid, a, b) == Within(fs, uid, a, b)
  {
    if |es| > 0 { WithinSame(es[..|es| - 1], fs[..|es| - 1], uid, a, b); }
  }

  // ------------------------------------------------------------ invariant

  predicate Dated(e: Entry, now: nat) {
    && e.job.created <= now
    && (e.job.requested.Some? ==> e.job.requested.value == e.job.created)
    && (!e.listed ==> e.job.created <= now - HOUR)
    && e.limit <= MAX_PER_HOUR
  }

  /** Stamps are whole seconds. */
  predicate Whole(es: seq<Entry>) { forall i :: 0 <= i < |es| ==> es[i].job.created % SECOND == 0 }

  /** When it was created, the policy had fewer captures in the hour before it than its limit. */
  predicate Fits(es: seq<Entry>, k: nat)
    requires k < |es|
  {
    Policy(es[k]).Some? ==>
      Within(es[..k], Policy(es[k]).value, es[k].job.created - HOUR, es[k].job.created) < es[k].limit
  }

  predicate Ordered(es: seq<Entry>) { forall i, j :: 0 <= i < j < |es| ==> es[i].job.created <= es[j].job.created }

  predicate Room(s: State, uid: string, p: Passed) {
    p.at <= s.now && p.limit <= MAX_PER_HOUR && Within(s.entries, uid, p.at - HOUR, s.now) < p.limit
  }

  predicate Inv(s: State) {
    && Ordered(s.entries) && Whole(s.entries)
    && (forall i :: 0 <= i < |s.entries| ==> Dated(s.entries[i], s.now))
    && (forall k :: 0 <= k < |s.entries| ==> Fits(s.entries, k))
    && (forall uid :: uid in s.passed ==> Room(s, uid, s.passed[uid]))
  }

  // ------------------------------------------------------------ every window

  /** The k-th capture is one of the window ending at x, and the window is within its limit. */
  predicate Bounds(es: seq<Entry>, uid: string, x: int, k: nat) {
    && k < |es| && Policy(es[k]) == Some(uid) && x - HOUR < es[k].job.created <= x
    && Within(es, uid, x - HOUR, x) <= es[k].limit
  }

  /** A window holds at most as many captures as the limit of the last one in it. */
  lemma {:induction false} WindowFits(es: seq<Entry>, uid: string, x: int)
    requires Ordered(es) && forall k :: 0 <= k < |es| ==> Fits(es, k)
    ensures Within(es, uid, x - HOUR, x) == 0 || exists k: nat :: Bounds(es, uid, x, k)
  {
    if |es| > 0 {
      var n := |es| - 1;
      var front, e := es[..n], es[n];
      if Policy(e) == Some(uid) && x - HOUR < e.job.created <= x {
        assert Fits(es, n);
        WithinMonotone(front, uid, x - HOUR, x, e.job.created - HOUR, e.job.created);
        assert Bounds(es, uid, x, n);
      } else {
        forall k | 0 <= k < |front| ensures Fits(front, k) {
          assert Fits(es, k) && front[..k] == es[..k];
        }
        WindowFits(front, uid, x);
        if Within(front, uid, x - HOUR, x) > 0 {
          var k: nat :| Bounds(front, uid, x, k);
          assert Bounds(es, uid, x, k);
        }
      }
    }
  }

  lemma {:induction false} RecentAppends(jobs: seq<Job>, j: Job, uid: string, after: int)
    ensures Recent(jobs + [j], uid, after) == Recent(jobs, uid, after) + if Counts(j, uid, after) then 1 else 0
  {
    assert (jobs + [j])[..|jobs|] == jobs;
  }

  lemma DatedCounts(e: Entry, uid: string, now: nat)
    requires Dated(e, now)
    ensures e.listed && Counts(e.job, uid, now - HOUR) <==> Policy(e) == Some(uid) && now - HOUR < e.job.created <= now
  {
  }

  lemma {:induction false} ListingCounts(es: seq<Entry>, uid: string, now: nat)
    requires forall i :: 0 <= i < |es| ==> Dated(es[i], now)
    ensures Recent(Listing(es), uid, now - HOUR) == Within(es, uid, now - HOUR, now)
  {
    if |es| > 0 {
      var n := |es| - 1;
      ListingCounts(es[..n], uid, now);
      DatedCounts(es[n], uid, now);
      if es[n].listed {
        RecentAppends(Listing(es[..n]), es[n].job, uid, now - HOUR);
      } else {
        assert Listing(es) == Listing(es[..n]);
      }
    }
  }

  // ------------------------------------------------------------ steps

  lemma WindowSmall(s: State, uid: string)
    requires Inv(s)
    ensures Within(s.entries, uid, s.now - HOUR, s.now) <= MAX_PER_HOUR
  {
    WindowFits(s.entries, uid, s.now);
    if Within(s.entries, uid, s.now - HOUR, s.now) > 0 {
      var k: nat :| Bounds(s.entries, uid, s.now, k);
      assert Dated(s.entries[k], s.now);
    }
  }

  /** What the check measures is the true count of the trailing hour. */
  lemma {:induction false} CheckMeasures(s: State, uid: string)
    requires Inv(s)
    ensures Summary(Listing(s.entries), uid, s.now).hourly == Within(s.entries, uid, s.now - HOUR, s.now)
  {
    WindowSmall(s, uid);
    ListingCounts(s.entries, uid, s.now);
    SmallSummary(Listing(s.entries), uid, s.now);
  }

  ghost function Stamped(es: seq<Entry>, uid: string, after: int, upto: int): set<nat> {
    set i: nat | i < |es| && es[i].job.policy == Some(uid) && after < es[i].job.created <= upto
  }

  lemma {:induction false} WithinIsCount(es: seq<Entry>, uid: string, after: int, upto: int)
    ensures Within(es, uid, after, upto) == |Stamped(es, uid, after, upto)|
  {
    if |es| > 0 {
      var n := |es| - 1;
      WithinIsCount(es[..n], uid, after, upto);
      assert Stamped(es, uid, after, upto) == Stamped(es[..n], uid, after, upto) +
        if es[n].job.policy == Some(uid) && after < es[n].job.created <= upto then {n} else {};
    }
  }

  lemma CheckKeeps(s: State, e: Event)
    requires Inv(s) && Enabled(s, e) && e.Check?
    ensures Inv(Step(s, e))
  {
    CheckMeasures(s, e.uid);
    var t := Step(s, e);
    forall uid | uid in t.passed ensures Room(t, uid, t.passed[uid]) {
      if uid != e.uid { assert Room(s, uid, s.passed[uid]); }
    }
  }

  lemma StampLate(now: nat, at: nat, created: nat)
    requires at <= now && created % SECOND == 0 && created > Stamp(now) - HOUR
    ensures created > at - HOUR
  {
    assert now < Stamp(now) + SECOND;
    assert Stamp(now) % SECOND == 0 && HOUR % SECOND == 0;
    assert created >= Stamp(now) - HOUR + SECOND;
  }

  /** Room at the check is still room at the later creation. */
  lemma {:induction false} RoomSuffices(s: State, uid: string, p: Passed)
    requires (forall i :: 0 <= i < |s.entries| ==> Dated(s.entries[i], s.now)) && Whole(s.entries) && Room(s, uid, p)
    ensures Within(s.entries, uid, Stamp(s.now) - HOUR, Stamp(s.now)) < p.limit
  {
    forall i | 0 <= i < |s.entries| && Stamp(s.now) - HOUR < s.entries[i].job.created <= Stamp(s.now)
      ensures p.at - HOUR < s.entries[i].job.created <= s.now
    {
      assert Dated(s.entries[i], s.now);
      StampLate(s.now, p.at, s.entries[i].job.created);
    }
    WithinMonotone(s.entries, uid, Stamp(s.now) - HOUR, Stamp(s.now), p.at - HOUR, s.now);
  }

  lemma {:induction false} AppendedFits(es: seq<Entry>, e: Entry)
    requires (forall k :: 0 <= k < |es| ==> Fits(es, k)) && Policy(e).Some?
    requires Within(es, Policy(e).value, e.job.created - HOUR, e.job.created) < e.limit
    ensures forall k :: 0 <= k < |es + [e]| ==> Fits(es + [e], k)
  {
    var fs := es + [e];
    forall k | 0 <= k < |fs| ensures Fits(fs, k) {
      if k < |es| {
        assert Fits(es, k) && fs[..k] == es[..k];
      } else {
        assert fs[..k] == es;
      }
    }
  }

  lemma RoomAfterOther(s: State, t: State, uid: string, p: Passed, e: Entry)
    requires Room(s, uid, p) && t.now == s.now && t.entries == s.entries + [e] && Policy(e) != Some(uid)
    ensures Room(t, uid, p)
  {
    assert t.entries[..|s.entries|] == s.entries;
  }

  lemma CreateKeeps(s: State, e: Event)
    requires Inv(s) && Enabled(s, e) && e.Create?
    ensures Inv(Step(s, e))
  {
    var t, p := Step(s, e), s.passed[e.uid];
    var entry := Entry(Job(Some(e.uid), None, Stamp(s.now), NoPhase), p.limit, true);
    assert t.entries == s.entries + [entry] && Room(s, e.uid, p);
    RoomSuffices(s, e.uid, p);
    AppendedFits(s.entries, entry);
    StampOrder(s);
    forall i | 0 <= i < |t.entries| ensures Dated(t.entries[i], t.now) {
      if i < |s.entries| { assert Dated(s.entries[i], s.now); }
    }
    forall uid | uid in t.passed ensures Room(t, uid, t.passed[uid]) {
      RoomAfterOther(s, t, uid, s.passed[uid], entry);
    }
  }

  lemma StampOrder(s: State)
    requires Whole(s.entries) && forall i :: 0 <= i < |s.entries| ==> Dated(s.entries[i], s.now)
    ensures forall i :: 0 <= i < |s.entries| ==> s.entries[i].job.created <= Stamp(s.now)
  {
    forall i | 0 <= i < |s.entries| ensures s.entries[i].job.created <= Stamp(s.now) {
      assert Dated(s.entries[i], s.now);
    }
  }

  lemma ShapeFits(es: seq<Entry>, fs: seq<Entry>, k: nat)
    requires SameStamps(es, fs) && k < |es| && Fits(es, k) && fs[k].limit == es[k].limit
    ensures Fits(fs, k)
  {
    if Policy(fs[k]).Some? {
      WithinSame(es[..k], fs[..k], Policy(fs[k]).value, fs[k].job.created - HOUR, fs[k].job.created);
    }
  }

  lemma ShapeRoom(s: State, t: State, uid: string, p: Passed)
    requires SameStamps(s.entries, t.entries) && t.now == s.now && Room(s, uid, p)
    ensures Room(t, uid, p)
  {
    WithinSame(s.entries, t.entries, uid, p.at - HOUR, t.now);
  }

  lemma ShapeKeeps(s: State, t: State)
    requires Inv(s) && SameStamps(s.entries, t.entries) && t.now == s.now && t.passed == s.passed
    requires forall i :: 0 <= i < |t.entries| ==> Dated(t.entries[i], t.now) && t.entries[i].limit == s.entries[i].limit
    ensures Inv(t)
  {
    forall k | 0 <= k < |t.entries| ensures Fits(t.entries, k) {
      ShapeFits(s.entries, t.entries, k);
    }
    forall uid | uid in t.passed ensures Room(t, uid, t.passed[uid]) {
      ShapeRoom(s, t, uid, s.passed[uid]);
    }
  }

  lemma EntryChangesKeep(s: State, e: Event)
    requires Inv(s) && Enabled(s, e) && (e.Progress? || e.Delete?)
    ensures Inv(Step(s, e))
  {
    var t := Step(s, e);
    forall i | 0 <= i < |t.entries| ensures Dated(t.entries[i], t.now) {
      assert Dated(s.entries[i], s.now);
    }
    ShapeKeeps(s, t);
  }

  lemma TickKeeps(s: State, e: Event)
    requires Inv(s) && e.Tick?
    ensures Inv(Step(s, e))
  {
    var t := Step(s, e);
    forall i | 0 <= i < |t.entries| ensures Dated(t.entries[i], t.now) {
      assert Dated(s.entries[i], s.now);
    }
    forall uid | uid in t.passed ensures Room(t, uid, t.passed[uid]) {
      assert Room(s, uid, s.passed[uid]);
      forall i | 0 <= i < |s.entries| ensures s.entries[i].job.created <= s.now {
        assert Dated(s.entries[i], s.now);
      }
      WithinMonotone(s.entries, uid, t.passed[uid].at - HOUR, t.now, t.passed[uid].at - HOUR, s.now);
    }
  }

  lemma FollowsKeeps(s: State, t: State)
    requires Inv(s) && Follows(s, t)
    ensures Inv(t)
  {
    var e :| Enabled(s, e) && t == Step(s, e);
    match e
    case Tick(_) => TickKeeps(s, e);
    case Check(_, _) => CheckKeeps(s, e);
    case Create(_) => CreateKeeps(s, e);
    case Progress(_, _, _) => EntryChangesKeep(s, e);
    case Delete(_) => EntryChangesKeep(s, e);
    case Abandon(uid) =>
      forall u | u in t.passed ensures Room(t, u, t.passed[u]) { assert Room(s, u, s.passed[u]); }
    case Restart =>
  }

  lemma {:induction false} RunKeepsInv(run: seq<State>, i: nat)
    requires IsRun(run) && i < |run|
    ensures Inv(run[i])
  {
    if i > 0 {
      RunKeepsInv(run, i - 1);
      FollowsKeeps(run[i - 1], run[i]);
    }
  }

  /** The check lets a policy go on exactly when its captures of the trailing hour are fewer than the limit:
      nothing is refused early. */
  lemma CheckDecides(run: seq<State>, i: nat, uid: string, limit: int)
    requires IsRun(run) && i < |run| && Enabled(run[i], Check(uid, limit))
    ensures uid in Step(run[i], Check(uid, limit)).passed <==>
            |Stamped(run[i].entries, uid, run[i].now - 3_600_000_000_000, run[i].now)| < limit
  {
    RunKeepsInv(run, i);
    CheckMeasures(run[i], uid);
    WithinIsCount(run[i].entries, uid, run[i].now - HOUR, run[i].now);
  }

  /** A capture counts from the moment it is created. */
  lemma CreatedCounts(run: seq<State>, i: nat, uid: string)
    requires IsRun(run) && i < |run| && uid in run[i].passed
    ensures var s, t := run[i], Step(run[i], Create(uid));
      |Stamped(t.entries, uid, t.now - 3_600_000_000_000, t.now)|
      == |Stamped(s.entries, uid, s.now - 3_600_000_000_000, s.now)| + 1
  {
    var s, t, n := run[i], Step(run[i], Create(uid)), |run[i].entries|;
    assert Stamp(s.now) == s.now - s.now % SECOND;
    assert Stamped(t.entries, uid, t.now - HOUR, t.now) == Stamped(s.entries, uid, s.now - HOUR, s.now) + {n};
  }

  /** No hour of any run, wherever it starts, holds more captures of a policy than the limit in force
      when the last of them was requested. */
  lemma NoHourExceedsLimit(run: seq<State>, i: nat, uid: string, x: int)
    requires IsRun(run) && i < |run|
    ensures var held := Stamped(run[i].entries, uid, x - 3_600_000_000_000, x);
      held == {} || exists k :: k in held && |held| <= run[i].entries[k].limit
  {
    RunKeepsInv(run, i);
    WindowFits(run[i].entries, uid, x);
    WithinIsCount(run[i].entries, uid, x - HOUR, x);
    if Within(run[i].entries, uid, x - HOUR, x) > 0 {
      var k: nat :| Bounds(run[i].entries, uid, x, k);
      assert k in Stamped(run[i].entries, uid, x - HOUR, x);
    }
  }
}
