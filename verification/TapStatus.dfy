/** The status a tap projects from its sensors' reports, and when it can next change.  Times are nanoseconds. */
module TapStatus {
  import opened Options
  import opened Units
  import CaptureState

  const STALE_AFTER: nat := CaptureState.STALE_HEARTBEAT * SECOND

  datatype Analyzer = Analyzer(name: string, healthy: bool)

  datatype Target = Target(node: string, heartbeat: int, lastPacket: Option<int>, analyzers: seq<Analyzer>)

  datatype ConditionStatus = True | False | Unknown

  datatype Message =
    NoneReported | AllStale | Incomplete | AllHealthy | Unhealthy(analyzers: seq<(string, string)>)

  datatype Phase = Error | Pending | Degraded | Active

  predicate Fresh(t: Target, now: int) { now < t.heartbeat + STALE_AFTER }

  predicate AllAnalyzersHealthy(t: Target) {
    |t.analyzers| > 0 && forall i :: 0 <= i < |t.analyzers| ==> t.analyzers[i].healthy
  }

  // ------------------------------------------------------------ summary

  function Ready(ts: seq<Target>, now: int): (n: nat)
    ensures n <= |ts|
  {
    if |ts| == 0 then 0
    else
      var t := ts[|ts| - 1];
      Ready(ts[..|ts| - 1], now) + if Fresh(t, now) && AllAnalyzersHealthy(t) then 1 else 0
  }

  function Later(a: Option<int>, b: Option<int>): Option<int> {
    if b.Some? && (a.None? || b.value > a.value) then b else a
  }

  function LastPacket(ts: seq<Target>): Option<int> {
    if |ts| == 0 then None else Later(LastPacket(ts[..|ts| - 1]), ts[|ts| - 1].lastPacket)
  }

  /** The time of the latest packet any target ever saw, fresh or stale; none if none saw one. */
  predicate LatestPacket(ts: seq<Target>, at: Option<int>) {
    && (forall i :: 0 <= i < |ts| && ts[i].lastPacket.Some? ==> at.Some? && ts[i].lastPacket.value <= at.value)
    && (at.Some? ==> exists i :: 0 <= i < |ts| && ts[i].lastPacket == at)
  }

  lemma {:induction false} LastPacketIsLatest(ts: seq<Target>)
    ensures LatestPacket(ts, LastPacket(ts))
  {
    if |ts| > 0 {
      var front := ts[..|ts| - 1];
      LastPacketIsLatest(front);
      if LastPacket(ts) == LastPacket(front) && LastPacket(ts).Some? {
        var i :| 0 <= i < |front| && front[i].lastPacket == LastPacket(front);
        assert ts[i].lastPacket == LastPacket(ts);
      }
    }
  }

  method SummarizeTargetStatus(ts: seq<Target>, now: int) returns (ready: nat, lastPacket: Option<int>)
    ensures ready == Ready(ts, now) && ready == |ReadySet(ts, now)|
    ensures lastPacket == LastPacket(ts) && LatestPacket(ts, lastPacket)
  {
    LastPacketIsLatest(ts);
    ReadyIsCount(ts, now);
    ready, lastPacket := 0, None;
    for i := 0 to |ts|
      invariant ready == Ready(ts[..i], now) && lastPacket == LastPacket(ts[..i])
    {
      assert ts[..i + 1][..i] == ts[..i];
      if ts[i].lastPacket.Some? && (lastPacket.None? || ts[i].lastPacket.value > lastPacket.value) {
        lastPacket := ts[i].lastPacket;
      }
      if Fresh(ts[i], now) && AllAnalyzersHealthy(ts[i]) { ready := ready + 1; }
    }
    assert ts[..|ts|] == ts;
  }

  ghost function ReadySet(ts: seq<Target>, now: int): set<nat> {
    set i: nat | i < |ts| && IsReady(ts[i], now)
  }

  /** Heard of within ninety seconds, with analyzers, all of them healthy. */
  predicate IsReady(t: Target, now: int) {
    && now - t.heartbeat < 90_000_000_000 && |t.analyzers| > 0
    && forall k :: 0 <= k < |t.analyzers| ==> t.analyzers[k].healthy
  }

  lemma {:induction false} ReadyIsCount(ts: seq<Target>, now: int)
    ensures Ready(ts, now) == |ReadySet(ts, now)|
  {
    if |ts| > 0 {
      var n := |ts| - 1;
      ReadyIsCount(ts[..n], now);
      if Fresh(ts[n], now) && AllAnalyzersHealthy(ts[n]) {
        assert ReadySet(ts, now) == ReadySet(ts[..n], now) + {n};
      } else {
        assert ReadySet(ts, now) == ReadySet(ts[..n], now);
      }
    }
  }

  // ------------------------------------------------------------ analyzer health

  function Sick(node: string, analyzers: seq<Analyzer>): seq<(string, string)> {
    if |analyzers| == 0 then []
    else
      var a := analyzers[|analyzers| - 1];
      Sick(node, analyzers[..|analyzers| - 1]) + if a.healthy then [] else [(node, a.name)]
  }

  /** The unhealthy analyzers of fresh targets, in order. */
  function SickOf(ts: seq<Target>, now: int): seq<(string, string)> {
    if |ts| == 0 then []
    else
      var t := ts[|ts| - 1];
      SickOf(ts[..|ts| - 1], now) + if Fresh(t, now) then Sick(t.node, t.analyzers) else []
  }

  predicate AnyFresh(ts: seq<Target>, now: int) { exists i :: 0 <= i < |ts| && Fresh(ts[i], now) }

  predicate AnySilent(ts: seq<Target>, now: int) {
    exists i :: 0 <= i < |ts| && Fresh(ts[i], now) && |ts[i].analyzers| == 0
  }

  function Health(ts: seq<Target>, now: int): (ConditionStatus, Message) {
    if |ts| == 0 then (Unknown, NoneReported)
    else if |SickOf(ts, now)| > 0 then (False, Unhealthy(SickOf(ts, now)))
    else if !AnyFresh(ts, now) then (Unknown, AllStale)
    else if AnySilent(ts, now) then (Unknown, Incomplete)
    else (True, AllHealthy)
  }

  method CollectSick(t: Target, unhealthy: seq<(string, string)>) returns (r: seq<(string, string)>)
    ensures r == unhealthy + Sick(t.node, t.analyzers)
  {
    r := unhealthy;
    for j := 0 to |t.analyzers|
      invariant r == unhealthy + Sick(t.node, t.analyzers[..j])
    {
      assert t.analyzers[..j + 1][..j] == t.analyzers[..j];
      if !t.analyzers[j].healthy { r := r + [(t.node, t.analyzers[j].name)]; }
    }
    assert t.analyzers[..|t.analyzers|] == t.analyzers;
  }

  method ProjectedAnalyzerHealth(ts: seq<Target>, now: int) returns (health: ConditionStatus, message: Message)
    ensures (health, message) == Health(ts, now)
  {
    if |ts| == 0 { return Unknown, NoneReported; }
    var unhealthy: seq<(string, string)>, current, incomplete := [], 0, false;
    for i := 0 to |ts|
      invariant unhealthy == SickOf(ts[..i], now)
      invariant current > 0 <==> exists k :: 0 <= k < i && Fresh(ts[k], now)
      invariant incomplete <==> exists k :: 0 <= k < i && Fresh(ts[k], now) && |ts[k].analyzers| == 0
      invariant current >= 0
    {
      assert ts[..i + 1][..i] == ts[..i];
      if !Fresh(ts[i], now) { continue; }
      current := current + 1;
      if |ts[i].analyzers| == 0 { incomplete := true; }
      unhealthy := CollectSick(ts[i], unhealthy);
    }
    assert ts[..|ts|] == ts;
    if |unhealthy| == 0 {
      if current == 0 { return Unknown, AllStale; }
      if incomplete { return Unknown, Incomplete; }
      return True, AllHealthy;
    }
    return False, Unhealthy(unhealthy);
  }

  lemma {:induction false} NoSick(node: string, analyzers: seq<Analyzer>)
    ensures |Sick(node, analyzers)| == 0 <==> forall i :: 0 <= i < |analyzers| ==> analyzers[i].healthy
  {
    if |analyzers| > 0 { NoSick(node, analyzers[..|analyzers| - 1]); }
  }

  lemma {:induction false} NoSickFresh(ts: seq<Target>, now: int, i: nat)
    requires |SickOf(ts, now)| == 0 && i < |ts| && Fresh(ts[i], now)
    ensures |Sick(ts[i].node, ts[i].analyzers)| == 0
  {
    if i < |ts| - 1 { NoSickFresh(ts[..|ts| - 1], now, i); }
  }

  /** Healthy means that some target is fresh, and that every fresh one reports analyzers, all healthy. */
  lemma HealthyMeans(ts: seq<Target>, now: int)
    requires Health(ts, now).0.True?
    ensures AnyFresh(ts, now) && forall i :: 0 <= i < |ts| && Fresh(ts[i], now) ==> AllAnalyzersHealthy(ts[i])
  {
    forall i | 0 <= i < |ts| && Fresh(ts[i], now) ensures AllAnalyzersHealthy(ts[i]) {
      NoSickFresh(ts, now, i);
      NoSick(ts[i].node, ts[i].analyzers);
    }
  }

  predicate SickAt(ts: seq<Target>, now: int, who: (string, string), i: nat, k: nat) {
    && i < |ts| && Fresh(ts[i], now) && k < |ts[i].analyzers|
    && !ts[i].analyzers[k].healthy && who == (ts[i].node, ts[i].analyzers[k].name)
  }

  lemma {:induction false} SickMeans(node: string, analyzers: seq<Analyzer>, who: (string, string))
    ensures who in Sick(node, analyzers) <==>
            exists k :: 0 <= k < |analyzers| && !analyzers[k].healthy && who == (node, analyzers[k].name)
  {
    if |analyzers| > 0 {
      var n := |analyzers| - 1;
      SickMeans(node, analyzers[..n], who);
      if k :| 0 <= k < n && !analyzers[..n][k].healthy && who == (node, analyzers[..n][k].name) {
        assert !analyzers[k].healthy;
      }
      if k :| 0 <= k < |analyzers| && !analyzers[k].healthy && who == (node, analyzers[k].name) {
        if k < n { assert !analyzers[..n][k].healthy; }
      }
    }
  }

  /** The unhealthy analyzers named are those of fresh targets, all of them and no others. */
  lemma {:induction false} SickOfMeans(ts: seq<Target>, now: int, who: (string, string))
    ensures who in SickOf(ts, now) <==> exists i: nat, k: nat :: SickAt(ts, now, who, i, k)
  {
    if |ts| > 0 {
      var n := |ts| - 1;
      SickOfMeans(ts[..n], now, who);
      SickMeans(ts[n].node, ts[n].analyzers, who);
      if i: nat, k: nat :| SickAt(ts[..n], now, who, i, k) {
        assert SickAt(ts, now, who, i, k);
      }
      if i: nat, k: nat :| SickAt(ts, now, who, i, k) {
        if i < n { assert SickAt(ts[..n], now, who, i, k); }
      }
      if who in Sick(ts[n].node, ts[n].analyzers) && Fresh(ts[n], now) {
        var k :| 0 <= k < |ts[n].analyzers| && !ts[n].analyzers[k].healthy
                 && who == (ts[n].node, ts[n].analyzers[k].name);
        assert SickAt(ts, now, who, n, k);
      }
    }
  }

  ghost predicate AnySick(ts: seq<Target>, now: int) {
    exists i: nat, k: nat :: i < |ts| && Fresh(ts[i], now) && k < |ts[i].analyzers| && !ts[i].analyzers[k].healthy
  }

  lemma SickExists(ts: seq<Target>, now: int)
    ensures |SickOf(ts, now)| > 0 <==> AnySick(ts, now)
  {
    if |SickOf(ts, now)| > 0 {
      var who := SickOf(ts, now)[0];
      SickOfMeans(ts, now, who);
      var i: nat, k: nat :| SickAt(ts, now, who, i, k);
      assert !ts[i].analyzers[k].healthy;
    }
    if AnySick(ts, now) {
      var i: nat, k: nat :| i < |ts| && Fresh(ts[i], now) && k < |ts[i].analyzers| && !ts[i].analyzers[k].healthy;
      var who := (ts[i].node, ts[i].analyzers[k].name);
      assert SickAt(ts, now, who, i, k);
      SickOfMeans(ts, now, who);
    }
  }

  /** Health is False exactly when a fresh target reports an unhealthy analyzer, and the message names just
      those.  Otherwise it is True exactly when some target is fresh and every fresh one reports analyzers; if
      it is neither, the message says why. */
  lemma HealthMeans(ts: seq<Target>, now: int)
    ensures Health(ts, now).0.False? <==> AnySick(ts, now)
    ensures Health(ts, now).0.False? <==> Health(ts, now).1.Unhealthy?
    ensures Health(ts, now).1.Unhealthy? ==>
      forall who :: who in Health(ts, now).1.analyzers <==> exists i: nat, k: nat :: SickAt(ts, now, who, i, k)
    ensures Health(ts, now).0.True? <==> !AnySick(ts, now) && AnyFresh(ts, now) && !AnySilent(ts, now)
    ensures Health(ts, now).1.AllHealthy? <==> Health(ts, now).0.True?
    ensures Health(ts, now).1.NoneReported? <==> ts == []
    ensures Health(ts, now).1.AllStale? <==> ts != [] && !AnyFresh(ts, now)
  {
    SickExists(ts, now);
    forall who ensures who in SickOf(ts, now) <==> exists i: nat, k: nat :: SickAt(ts, now, who, i, k) {
      SickOfMeans(ts, now, who);
    }
  }

  // ------------------------------------------------------------ phase

  datatype Facts = Facts(matched: nat, workload: ConditionStatus)

  function DerivePhase(matched: nat, ready: nat, workload: ConditionStatus, analyzers: ConditionStatus): Phase {
    if matched == 0 then Error
    else if !workload.True? || analyzers.Unknown? || ready == 0 then Pending
    else if ready < matched || analyzers.False? then Degraded
    else Active
  }

  datatype Projection = Projection(ready: nat, lastPacket: Option<int>, health: ConditionStatus, message: Message,
                                   phase: Phase)

  function Project(ts: seq<Target>, facts: Facts, now: int): Projection {
    var health := Health(ts, now);
    Projection(Ready(ts, now), LastPacket(ts), health.0, health.1,
               DerivePhase(facts.matched, Ready(ts, now), facts.workload, health.0))
  }

  /** Active is earned: at least as many targets as matched are fresh with every analyzer healthy, and no
      fresh target says otherwise. */
  lemma ActiveIsEarned(ts: seq<Target>, facts: Facts, now: int)
    requires Project(ts, facts, now).phase.Active?
    ensures 0 < facts.matched <= |ReadySet(ts, now)| && facts.workload.True?
    ensures forall i :: 0 <= i < |ts| && Fresh(ts[i], now) ==> AllAnalyzersHealthy(ts[i])
  {
    ReadyIsCount(ts, now);
    HealthyMeans(ts, now);
  }

  /** What each phase says, in terms of the reports alone.  Error: nothing matched.  Pending: the workload is not
      ready, no fresh target has all its analyzers healthy, or nothing is known to be wrong but a fresh target
      is silent.  Degraded: some are ready but fewer than matched, or a fresh analyzer is unhealthy.  Active:
      none of these. */
  lemma PhaseMeans(ts: seq<Target>, facts: Facts, now: int)
    ensures var phase, ready := Project(ts, facts, now).phase, |ReadySet(ts, now)|;
      && (phase.Error? <==> facts.matched == 0)
      && (phase.Pending? <==>
            && facts.matched > 0
            && (!facts.workload.True? || ready == 0 || (AnySilent(ts, now) && !AnySick(ts, now))))
      && (phase.Degraded? <==>
            && facts.matched > 0 && facts.workload.True? && ready > 0
            && (AnySick(ts, now) || (ready < facts.matched && !AnySilent(ts, now))))
      && (phase.Active? <==>
            && 0 < facts.matched <= ready && facts.workload.True?
            && !AnySick(ts, now) && !AnySilent(ts, now))
  {
    ReadyIsCount(ts, now);
    HealthMeans(ts, now);
    if |ReadySet(ts, now)| > 0 {
      var i :| i in ReadySet(ts, now);
      assert Fresh(ts[i], now);
    }
  }

  // ------------------------------------------------------------ the timer

  function Until(t: Target, now: int): int { t.heartbeat + STALE_AFTER - now }

  /** `next` is the time to the earliest expiry of a fresh target, zero when there is none. */
  predicate Earliest(ts: seq<Target>, now: int, next: nat) {
    && (forall i :: 0 <= i < |ts| && Fresh(ts[i], now) ==> 0 < next <= ts[i].heartbeat + 90_000_000_000 - now)
    && (next > 0 ==> exists i :: 0 <= i < |ts| && Fresh(ts[i], now) && ts[i].heartbeat + 90_000_000_000 - now == next)
  }

  lemma EarliestExtends(ts: seq<Target>, t: Target, now: int, was: nat, next: nat)
    requires Earliest(ts, now, was)
    requires next == if Fresh(t, now) && (was == 0 || Until(t, now) < was) then Until(t, now) else was
    ensures Earliest(ts + [t], now, next)
  {
    var us := ts + [t];
    assert us[|ts|] == t && forall k :: 0 <= k < |ts| ==> us[k] == ts[k];
    if was > 0 {
      var k :| 0 <= k < |ts| && Fresh(ts[k], now) && ts[k].heartbeat + 90_000_000_000 - now == was;
      assert Fresh(us[k], now) && us[k].heartbeat + 90_000_000_000 - now == was;
    }
  }

  method NextHeartbeatExpiry(ts: seq<Target>, now: int) returns (next: nat)
    ensures Earliest(ts, now, next)
  {
    next := 0;
    for i := 0 to |ts|
      invariant Earliest(ts[..i], now, next)
    {
      ghost var was := next;
      assert ts[..i + 1] == ts[..i] + [ts[i]];
      if Fresh(ts[i], now) {
        var until := Until(ts[i], now);
        if next == 0 || until < next { next := until; }
      }
      EarliestExtends(ts[..i], ts[i], now, was, next);
    }
    assert ts[..|ts|] == ts;
  }

  predicate SameFreshness(ts: seq<Target>, a: int, b: int) {
    forall i :: 0 <= i < |ts| ==> (Fresh(ts[i], a) <==> Fresh(ts[i], b))
  }

  lemma {:induction false} SameProjection(ts: seq<Target>, a: int, b: int)
    requires SameFreshness(ts, a, b)
    ensures Ready(ts, a) == Ready(ts, b) && SickOf(ts, a) == SickOf(ts, b)
  {
    if |ts| > 0 { SameProjection(ts[..|ts| - 1], a, b); }
  }

  /** With the other facts fixed, nothing the tap reports changes before the timer fires. */
  lemma ConstantUntilExpiry(ts: seq<Target>, facts: Facts, now: int, next: nat, t: int)
    requires Earliest(ts, now, next) && now <= t && (next == 0 || t < now + next)
    ensures Project(ts, facts, t) == Project(ts, facts, now)
  {
    assert SameFreshness(ts, now, t);
    SameProjection(ts, now, t);
  }

  /** And when it fires, a target that was fresh is stale. */
  lemma ExpiryIsReal(ts: seq<Target>, now: int, next: nat)
    requires Earliest(ts, now, next) && next > 0
    ensures exists i :: 0 <= i < |ts| && Fresh(ts[i], now) && !Fresh(ts[i], now + next)
  {
    var i :| 0 <= i < |ts| && Fresh(ts[i], now) && ts[i].heartbeat + 90_000_000_000 - now == next;
    assert !Fresh(ts[i], now + next);
  }
}
