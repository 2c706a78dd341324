/** The engine's windows: one per policy, rebuilt when the policy's threshold changes, dropped with it. */
module ThresholdWindows {
  import opened Threshold

  datatype Setting = Setting(count: int, period: int)

  datatype Held = Held(setting: Setting, window: Window)

  type Windows = map<string, Held>

  datatype Event = Offer(uid: string, setting: Setting, delivery: Delivery) | Prune(live: set<string>)

  /** The window a policy's next event goes to. */
  function Current(m: Windows, uid: string, s: Setting): Window {
    if uid in m && m[uid].setting == s then m[uid].window else FRESH
  }

  function Step(m: Windows, e: Event): Windows {
    match e
    case Offer(uid, s, d) => m[uid := Held(s, Observed(Current(m, uid, s), s.period, d))]
    case Prune(live) => map uid | uid in m && uid in live :: m[uid]
  }

  function AfterAll(es: seq<Event>): Windows {
    if |es| == 0 then map[] else Step(AfterAll(es[..|es| - 1]), es[|es| - 1])
  }

  class PolicyEngine {
    var windows: Windows

    constructor ()
      ensures windows == map[]
    {
      windows := map[];
    }

    /** A qualifying event of a policy that has a threshold. */
    method Observe(uid: string, s: Setting, d: Delivery) returns (r: ThresholdCount)
      modifies this
      ensures windows == Step(old(windows), Offer(uid, s, d))
      ensures r == ThresholdCount(|windows[uid].window.events|, |windows[uid].window.events| >= s.count)
    {
      if uid !in windows || windows[uid].setting != s {
        windows := windows[uid := Held(s, FRESH)];
      }
      var w := Observed(windows[uid].window, s.period, d);
      windows := windows[uid := Held(s, w)];
      return ThresholdCount(|w.events|, |w.events| >= s.count);
    }

    method PruneWindows(policies: seq<string>)
      modifies this
      ensures windows == Step(old(windows), Prune(set uid | uid in policies))
    {
      if windows == map[] { return; }
      var live: set<string> := {};
      for i := 0 to |policies|
        invariant live == set uid | uid in policies[..i]
      {
        live := live + {policies[i]};
        assert policies[..i + 1] == policies[..i] + [policies[i]];
      }
      assert policies[..|policies|] == policies;
      var uids := windows.Keys;
      while uids != {}
        invariant uids <= old(windows).Keys
        invariant forall uid :: uid in windows <==> uid in old(windows) && (uid in uids || uid in live)
        invariant forall uid :: uid in windows ==> windows[uid] == old(windows)[uid]
        decreases |uids|
      {
        var uid :| uid in uids;
        if uid !in live { windows := windows - {uid}; }
        uids := uids - {uid};
      }
    }
  }

  // ------------------------------------------------------------ what a window has seen

  /** An event after which nothing earlier counts for the policy. */
  predicate Resets(e: Event, uid: string, s: Setting) {
    match e
    case Offer(u, t, _) => u == uid && t != s
    case Prune(live) => uid !in live
  }

  predicate Undisturbed(es: seq<Event>, uid: string, s: Setting) {
    forall i :: 0 <= i < |es| ==> !Resets(es[i], uid, s)
  }

  /** The policy's deliveries among some events, in order. */
  function Deliveries(es: seq<Event>, uid: string): seq<Delivery> {
    if |es| == 0 then []
    else
      var e := es[|es| - 1];
      Deliveries(es[..|es| - 1], uid) + if e.Offer? && e.uid == uid then [e.delivery] else []
  }

  /** k is where the present setting took hold: nothing since resets it, and what is just before does. */
  predicate SetAt(es: seq<Event>, uid: string, s: Setting, k: nat) {
    k <= |es| && Undisturbed(es[k..], uid, s) && (k == 0 || Resets(es[k - 1], uid, s))
  }

  lemma {:induction false} SettingTookHold(es: seq<Event>, uid: string, s: Setting) returns (k: nat)
    ensures SetAt(es, uid, s, k)
  {
    k := |es|;
    if |es| > 0 && !Resets(es[|es| - 1], uid, s) {
      var front := es[..|es| - 1];
      k := SettingTookHold(front, uid, s);
      forall i | 0 <= i < |es[k..]| ensures !Resets(es[k..][i], uid, s) {
        if i < |front[k..]| { assert es[k..][i] == front[k..][i]; }
      }
    }
  }

  predicate Holds(m: Windows, uid: string, s: Setting) { uid in m && m[uid].setting == s }

  /** The window kept for a policy, if any, is what these deliveries lead to. */
  predicate Reflects(m: Windows, uid: string, s: Setting, ds: seq<Delivery>) {
    Current(m, uid, s) == After(ds, s.period) && (Holds(m, uid, s) <==> |ds| > 0)
  }

  lemma StepReflects(m: Windows, uid: string, s: Setting, ds: seq<Delivery>, e: Event)
    requires Reflects(m, uid, s, ds) && !Resets(e, uid, s)
    ensures Reflects(Step(m, e), uid, s, ds + if e.Offer? && e.uid == uid then [e.delivery] else [])
  {
    if e.Offer? && e.uid == uid {
      assert (ds + [e.delivery])[..|ds|] == ds;
    } else {
      assert ds + [] == ds;
    }
  }

  lemma FrontSetAt(es: seq<Event>, uid: string, s: Setting, k: nat)
    requires SetAt(es, uid, s, k) && k < |es|
    ensures SetAt(es[..|es| - 1], uid, s, k) && !Resets(es[|es| - 1], uid, s)
    ensures es[k..][..|es| - 1 - k] == es[..|es| - 1][k..] && es[k..][|es| - 1 - k] == es[|es| - 1]
  {
    var front := es[..|es| - 1];
    forall i | 0 <= i < |front[k..]| ensures !Resets(front[k..][i], uid, s) {
      assert front[k..][i] == es[k..][i];
    }
  }

  /** Whatever window is kept for a policy holds what its deliveries since then lead to. */
  lemma {:induction false} KeptSince(es: seq<Event>, uid: string, s: Setting, k: nat)
    requires SetAt(es, uid, s, k)
    ensures Reflects(AfterAll(es), uid, s, Deliveries(es[k..], uid))
  {
    if k < |es| {
      FrontSetAt(es, uid, s, k);
      KeptSince(es[..|es| - 1], uid, s, k);
      StepReflects(AfterAll(es[..|es| - 1]), uid, s, Deliveries(es[..|es| - 1][k..], uid), es[|es| - 1]);
    } else if k > 0 {
      ResetClears(es, uid, s);
    }
  }

  lemma ResetClears(es: seq<Event>, uid: string, s: Setting)
    requires |es| > 0 && Resets(es[|es| - 1], uid, s)
    ensures !Holds(AfterAll(es), uid, s)
  {
  }

  lemma PrefixSetAt(es: seq<Event>, uid: string, s: Setting, k: nat, n: nat)
    requires SetAt(es, uid, s, k) && k <= n <= |es|
    ensures SetAt(es[..n], uid, s, k) && es[..n][k..] == es[k..n]
  {
    forall i | 0 <= i < |es[..n][k..]| ensures !Resets(es[..n][k..][i], uid, s) {
      assert es[..n][k..][i] == es[k..][i];
    }
  }

  /** The deliveries of a longer stretch start with those of a shorter one. */
  lemma {:induction false} DeliveriesGrow(es: seq<Event>, uid: string, n: nat)
    requires n <= |es|
    ensures Deliveries(es[..n], uid) <= Deliveries(es, uid)
  {
    if n == |es| {
      assert es[..n] == es;
    } else {
      DeliveriesGrow(es[..|es| - 1], uid, n);
      assert es[..|es| - 1][..n] == es[..n];
    }
  }

  /** And every beginning of the deliveries is reached somewhere. */
  lemma {:induction false} DeliveriesReach(es: seq<Event>, uid: string, m: nat) returns (n: nat)
    requires m <= |Deliveries(es, uid)|
    ensures n <= |es| && Deliveries(es[..n], uid) == Deliveries(es, uid)[..m]
  {
    n := |es|;
    if m == |Deliveries(es, uid)| {
      assert es[..n] == es;
    } else {
      var front := es[..|es| - 1];
      n := DeliveriesReach(front, uid, m);
      assert front[..n] == es[..n];
    }
  }

  predicate EngineExactAt(es: seq<Event>, uid: string, s: Setting, k: nat, n: nat)
    requires k <= n <= |es|
  {
    Exact(Current(AfterAll(es[..n]), uid, s), Firsts(Deliveries(es[k..n], uid)), s.period)
  }

  lemma {:induction false} EngineExactIsExact(es: seq<Event>, uid: string, s: Setting, k: nat, n: nat, m: nat)
    requires SetAt(es, uid, s, k) && k <= n <= |es| && m <= |Deliveries(es[k..], uid)|
    requires Deliveries(es[k..n], uid) == Deliveries(es[k..], uid)[..m]
    ensures EngineExactAt(es, uid, s, k, n) <==> ExactAt(Deliveries(es[k..], uid), s.period, m)
  {
    PrefixSetAt(es, uid, s, k, n);
    KeptSince(es[..n], uid, s, k);
  }

  lemma {:induction false} ExactThenEngineExact(es: seq<Event>, uid: string, s: Setting, k: nat, n: nat)
    requires SetAt(es, uid, s, k) && k <= n <= |es| && NoRevival(Deliveries(es[k..], uid), s.period)
    ensures EngineExactAt(es, uid, s, k, n)
  {
    DeliveriesGrow(es[k..], uid, n - k);
    assert es[k..][..n - k] == es[k..n];
    EngineExactIsExact(es, uid, s, k, n, |Deliveries(es[k..n], uid)|);
    NoRevivalIsExact(Deliveries(es[k..], uid), s.period, |Deliveries(es[k..n], uid)|);
  }

  lemma {:induction false} EngineExactThenExact(es: seq<Event>, uid: string, s: Setting, k: nat, m: nat)
    requires SetAt(es, uid, s, k) && (forall n :: k <= n <= |es| ==> EngineExactAt(es, uid, s, k, n))
    requires m <= |Deliveries(es[k..], uid)|
    ensures ExactAt(Deliveries(es[k..], uid), s.period, m)
  {
    var n := DeliveriesReach(es[k..], uid, m);
    assert es[k..][..n] == es[k..k + n] && EngineExactAt(es, uid, s, k, k + n);
    EngineExactIsExact(es, uid, s, k, k + n, m);
  }

  /** Since its threshold last changed or it was last absent, a policy's window is exact after every event, if
      and only if none of its deliveries revives an event; edits that leave the threshold alone reset nothing. */
  lemma {:induction false} EngineExactExactlyWhen(es: seq<Event>, uid: string, s: Setting, k: nat)
    requires SetAt(es, uid, s, k)
    ensures (forall n :: k <= n <= |es| ==> EngineExactAt(es, uid, s, k, n))
            <==> NoRevival(Deliveries(es[k..], uid), s.period)
  {
    var ds := Deliveries(es[k..], uid);
    if NoRevival(ds, s.period) {
      forall n | k <= n <= |es| ensures EngineExactAt(es, uid, s, k, n) {
        ExactThenEngineExact(es, uid, s, k, n);
      }
    } else if forall n :: k <= n <= |es| ==> EngineExactAt(es, uid, s, k, n) {
      forall m | 0 <= m <= |ds| ensures ExactAt(ds, s.period, m) {
        EngineExactThenExact(es, uid, s, k, m);
      }
      ExactExactlyWhen(ds, s.period);
    }
  }

  /** Then its count is the brute-force count of the events whose first delivery is recent. */
  lemma {:induction false} EngineCountIsBruteForce(es: seq<Event>, uid: string, s: Setting, k: nat)
    requires SetAt(es, uid, s, k) && Holds(AfterAll(es), uid, s)
    requires NoRevival(Deliveries(es[k..], uid), s.period)
    ensures var w, firsts := AfterAll(es)[uid].window, Firsts(Deliveries(es[k..], uid));
            w.newest == Latest(firsts) && |w.events| == |Recent(firsts, w.newest, s.period)|
  {
    var ds := Deliveries(es[k..], uid);
    KeptSince(es, uid, s, k);
    NoRevivalIsExact(ds, s.period, |ds|);
    assert ds[..|ds|] == ds;
    ExactCounts(After(ds, s.period), Firsts(ds), s.period);
  }

  /** With one time per event, that is the count of all its recent events. */
  lemma {:induction false} ConsistentEngineCount(es: seq<Event>, uid: string, s: Setting, k: nat)
    requires SetAt(es, uid, s, k) && Holds(AfterAll(es), uid, s)
    requires Consistent(Deliveries(es[k..], uid))
    ensures var w, ds := AfterAll(es)[uid].window, Deliveries(es[k..], uid);
            Newest(ds, w.newest) && |w.events| == |Recent(ds, w.newest, s.period)|
  {
    KeptSince(es, uid, s, k);
    CountIsBruteForce(Deliveries(es[k..], uid), s.period);
  }
}
