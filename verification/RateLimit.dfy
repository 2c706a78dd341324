/** What a policy's own captures say about its recent activity.  Times are nanoseconds since the zero time. */
module RateLimit {
  import opened Options
  import opened CaptureState
  import opened Units

  const MAX_INT32: int := 0x7FFF_FFFF

  datatype Job = Job(policy: Option<string>, requested: Option<nat>, created: nat, phase: Phase)

  datatype Usage = Usage(hourly: int, active: int, last: nat)

  const NO_USAGE := Usage(0, 0, 0)

  function RequestedAt(j: Job): nat { if j.requested.Some? then j.requested.value else j.created }

  /** A 32-bit counter. */
  function Inc32(n: int): int { if n == MAX_INT32 then -MAX_INT32 - 1 else n + 1 }

  /** What a 32-bit counter shows after counting to n. */
  function Signed32(n: nat): int { (n + 0x8000_0000) % 0x1_0000_0000 - 0x8000_0000 }

  lemma Inc32Counts(n: nat)
    ensures Inc32(Signed32(n)) == Signed32(n + 1)
  {
  }

  function AddUsage(u: Usage, j: Job, now: nat): Usage {
    Usage(if RequestedAt(j) > now - HOUR then Inc32(u.hourly) else u.hourly,
          if IsTerminal(j.phase) then u.active else Inc32(u.active),
          if RequestedAt(j) > u.last then RequestedAt(j) else u.last)
  }

  predicate LimitReached(u: Usage, limit: int) { u.hourly >= limit }

  // ------------------------------------------------------------ two ways to summarize

  function Summary(jobs: seq<Job>, uid: string, now: nat): Usage {
    if |jobs| == 0 then NO_USAGE
    else
      var j := jobs[|jobs| - 1];
      var u := Summary(jobs[..|jobs| - 1], uid, now);
      if j.policy == Some(uid) then AddUsage(u, j, now) else u
  }

  method UsageFrom(jobs: seq<Job>, uid: string, now: nat) returns (u: Usage)
    ensures u == Summary(jobs, uid, now)
  {
    u := NO_USAGE;
    for i := 0 to |jobs|
      invariant u == Summary(jobs[..i], uid, now)
    {
      assert jobs[..i + 1][..i] == jobs[..i];
      if jobs[i].policy.None? || jobs[i].policy.value != uid { continue; }
      u := AddUsage(u, jobs[i], now);
    }
    assert jobs[..|jobs|] == jobs;
  }

  function Lookup(m: map<string, Usage>, uid: string): Usage { if uid in m then m[uid] else NO_USAGE }

  /** One pass over all captures agrees with a pass per policy, for every UID. */
  method UsageByPolicy(jobs: seq<Job>, now: nat) returns (m: map<string, Usage>)
    ensures forall uid :: Lookup(m, uid) == Summary(jobs, uid, now)
    ensures forall uid :: uid in m <==> exists j :: j in jobs && j.policy == Some(uid)
  {
    m := map[];
    for i := 0 to |jobs|
      invariant forall uid :: Lookup(m, uid) == Summary(jobs[..i], uid, now)
      invariant forall uid :: uid in m <==> exists j :: j in jobs[..i] && j.policy == Some(uid)
    {
      assert jobs[..i + 1][..i] == jobs[..i] && jobs[..i + 1] == jobs[..i] + [jobs[i]];
      if jobs[i].policy.None? { continue; }
      var uid := jobs[i].policy.value;
      m := m[uid := AddUsage(Lookup(m, uid), jobs[i], now)];
    }
    assert jobs[..|jobs|] == jobs;
  }

  // ------------------------------------------------------------ what the summary means

  /** The capture was asked for at t: when its status says, or else when it was created. */
  predicate AskedAt(j: Job, t: nat) { j.requested == Some(t) || (j.requested.None? && j.created == t) }

  predicate Counts(j: Job, uid: string, after: int) {
    j.policy == Some(uid) && if j.requested.Some? then j.requested.value > after else j.created > after
  }

  function Recent(jobs: seq<Job>, uid: string, after: int): nat {
    if |jobs| == 0 then 0
    else Recent(jobs[..|jobs| - 1], uid, after) + if Counts(jobs[|jobs| - 1], uid, after) then 1 else 0
  }

  ghost function Chosen(jobs: seq<Job>, uid: string, after: int): set<nat> {
    set i: nat | i < |jobs| && Counts(jobs[i], uid, after)
  }

  lemma {:induction false} RecentIsCount(jobs: seq<Job>, uid: string, after: int)
    ensures Recent(jobs, uid, after) == |Chosen(jobs, uid, after)|
  {
    if |jobs| > 0 {
      var n := |jobs| - 1;
      RecentIsCount(jobs[..n], uid, after);
      var front := Chosen(jobs[..n], uid, after);
      assert Chosen(jobs, uid, after) == front + if Counts(jobs[n], uid, after) then {n} else {};
    }
  }

  /** The latest request of the policy's captures; the zero time if it has none. */
  ghost predicate LatestRequest(jobs: seq<Job>, uid: string, t: nat) {
    && (forall i, u: nat :: 0 <= i < |jobs| && jobs[i].policy == Some(uid) && AskedAt(jobs[i], u) ==> u <= t)
    && (t == 0 || exists i :: 0 <= i < |jobs| && jobs[i].policy == Some(uid) && AskedAt(jobs[i], t))
  }

  lemma {:induction false} LastIsLatest(jobs: seq<Job>, uid: string, now: nat)
    ensures LatestRequest(jobs, uid, Summary(jobs, uid, now).last)
  {
    if |jobs| > 0 {
      var front, t := jobs[..|jobs| - 1], Summary(jobs, uid, now).last;
      LastIsLatest(front, uid, now);
      if t == Summary(front, uid, now).last && t != 0 {
        var i :| 0 <= i < |front| && front[i].policy == Some(uid) && AskedAt(front[i], t);
        assert jobs[i].policy == Some(uid) && AskedAt(jobs[i], t);
      } else if t != 0 {
        assert jobs[|jobs| - 1].policy == Some(uid) && AskedAt(jobs[|jobs| - 1], t);
      }
    }
  }

  function Unfinished(jobs: seq<Job>, uid: string): nat {
    if |jobs| == 0 then 0
    else
      var j := jobs[|jobs| - 1];
      Unfinished(jobs[..|jobs| - 1], uid) + if j.policy == Some(uid) && !IsTerminal(j.phase) then 1 else 0
  }

  ghost function Running(jobs: seq<Job>, uid: string): set<nat> {
    set i: nat | i < |jobs| && jobs[i].policy == Some(uid) && jobs[i].phase !in {Completed, Failed, Expired}
  }

  lemma {:induction false} UnfinishedIsCount(jobs: seq<Job>, uid: string)
    ensures Unfinished(jobs, uid) == |Running(jobs, uid)|
  {
    if |jobs| > 0 {
      var n := |jobs| - 1;
      UnfinishedIsCount(jobs[..n], uid);
      var j := jobs[n];
      assert Running(jobs, uid) == Running(jobs[..n], uid) +
        if j.policy == Some(uid) && j.phase !in {Completed, Failed, Expired} then {n} else {};
    }
  }

  /** The active figure is the number of captures that have not ended, as 32 bits show it. */
  lemma {:induction false} ActiveMeans(jobs: seq<Job>, uid: string, now: nat)
    ensures Summary(jobs, uid, now).active == Signed32(|Running(jobs, uid)|)
    ensures |Running(jobs, uid)| <= MAX_INT32 ==> Summary(jobs, uid, now).active == |Running(jobs, uid)|
  {
    UnfinishedIsCount(jobs, uid);
    if |jobs| > 0 {
      ActiveMeans(jobs[..|jobs| - 1], uid, now);
      UnfinishedIsCount(jobs[..|jobs| - 1], uid);
      Inc32Counts(Unfinished(jobs[..|jobs| - 1], uid));
    }
  }

  /** The hourly figure is the number of captures requested in the last hour, as 32 bits show it. */
  lemma {:induction false} SummaryMeans(jobs: seq<Job>, uid: string, now: nat)
    ensures var n := |Chosen(jobs, uid, now - 3_600_000_000_000)|;
      && Summary(jobs, uid, now).hourly == Signed32(n)
      && (n <= MAX_INT32 ==> Summary(jobs, uid, now).hourly == n)
    ensures LatestRequest(jobs, uid, Summary(jobs, uid, now).last)
  {
    RecentIsCount(jobs, uid, now - HOUR);
    LastIsLatest(jobs, uid, now);
    if |jobs| > 0 {
      SummaryMeans(jobs[..|jobs| - 1], uid, now);
      RecentIsCount(jobs[..|jobs| - 1], uid, now - HOUR);
      Inc32Counts(Recent(jobs[..|jobs| - 1], uid, now - HOUR));
    }
  }

  lemma {:induction false} SmallSummary(jobs: seq<Job>, uid: string, now: nat)
    requires Recent(jobs, uid, now - HOUR) <= MAX_INT32
    ensures Summary(jobs, uid, now).hourly == Recent(jobs, uid, now - HOUR)
  {
    SummaryMeans(jobs, uid, now);
    RecentIsCount(jobs, uid, now - HOUR);
  }
}
