/** Counting distinct events over a rolling period.  Times are nanoseconds since the zero time. */
module Threshold {
  /** One delivery: the event's stable ID and when the worker saw it. */
  datatype Delivery = Delivery(id: string, at: nat)

  /** What a window holds: the newest time seen and the time of each event still inside. */
  datatype Window = Window(newest: nat, events: map<string, nat>)

  const FRESH := Window(0, map[])

  function Expired(w: Window, period: int): Window {
    Window(w.newest, map id | id in w.events && w.events[id] >= w.newest - period :: w.events[id])
  }

  function Admitted(w: Window, d: Delivery): Window {
    if d.id in w.events then w else Window(if d.at > w.newest then d.at else w.newest, w.events[d.id := d.at])
  }

  function Observed(w: Window, period: int, d: Delivery): Window { Expired(Admitted(w, d), period) }

  datatype ThresholdCount = ThresholdCount(count: nat, reached: bool)

  class ThresholdWindow {
    const count: int
    const period: int
    var newest: nat
    var events: map<string, nat>

    constructor (count: int, period: int)
      ensures this.count == count && this.period == period && Value() == FRESH
    {
      this.count, this.period := count, period;
      newest, events := 0, map[];
    }

    function Value(): Window
      reads this
    {
      Window(newest, events)
    }

    method Observe(d: Delivery) returns (r: ThresholdCount)
      modifies this
      ensures Value() == Observed(old(Value()), period, d)
      ensures r == ThresholdCount(|Value().events|, |Value().events| >= count)
    {
      if d.id !in events {
        events := events[d.id := d.at];
        if d.at > newest { newest := d.at; }
      }
      Expire();
      return ThresholdCount(|events|, |events| >= count);
    }

    method Expire()
      modifies this`events
      ensures Value() == Expired(old(Value()), period)
    {
      var cutoff := newest - period;
      var ids := events.Keys;
      while ids != {}
        invariant ids <= old(events).Keys
        invariant forall id :: id in events <==> id in old(events) && (id in ids || old(events)[id] >= cutoff)
        invariant forall id :: id in events ==> events[id] == old(events)[id]
        decreases |ids|
      {
        var id :| id in ids;
        if events[id] < cutoff { events := events - {id}; }
        ids := ids - {id};
      }
    }
  }

  // ------------------------------------------------------------ any sequence of deliveries

  function After(ds: seq<Delivery>, period: int): Window {
    if |ds| == 0 then FRESH else Observed(After(ds[..|ds| - 1], period), period, ds[|ds| - 1])
  }

  /** No time outside the window survives, whatever is delivered. */
  lemma {:induction false} HoldsOnlyRecent(ds: seq<Delivery>, period: int, id: string)
    requires id in After(ds, period).events
    ensures var w := After(ds, period); w.newest - period <= w.events[id] <= w.newest
  {
    if |ds| > 0 { NotNewer(ds, period, id); }
  }

  lemma {:induction false} NotNewer(ds: seq<Delivery>, period: int, id: string)
    requires id in After(ds, period).events
    ensures After(ds, period).events[id] <= After(ds, period).newest
  {
    if |ds| > 0 {
      var front, d := ds[..|ds| - 1], ds[|ds| - 1];
      if id in After(front, period).events { NotNewer(front, period, id); }
    }
  }

  // ------------------------------------------------------------ against a brute-force count

  predicate Newest(ds: seq<Delivery>, t: nat) {
    (forall i :: 0 <= i < |ds| ==> ds[i].at <= t) && (t == 0 || exists i :: 0 <= i < |ds| && ds[i].at == t)
  }

  predicate InWindow(d: Delivery, newest: nat, period: int) { d.at >= newest - period }

  /** The events among some deliveries whose time lies in the period before t. */
  ghost function Recent(ds: seq<Delivery>, t: nat, period: int): set<string> {
    set d | d in ds && InWindow(d, t, period) :: d.id
  }

  predicate Seen(ds: seq<Delivery>, id: string) { exists i :: 0 <= i < |ds| && ds[i].id == id }

  /** Each event at its first delivery. */
  function Firsts(ds: seq<Delivery>): seq<Delivery> {
    if |ds| == 0 then []
    else
      var front, d := ds[..|ds| - 1], ds[|ds| - 1];
      if Seen(front, d.id) then Firsts(front) else Firsts(front) + [d]
  }

  function Latest(ds: seq<Delivery>): nat {
    if |ds| == 0 then 0
    else
      var t := Latest(ds[..|ds| - 1]);
      if ds[|ds| - 1].at > t then ds[|ds| - 1].at else t
  }

  lemma {:induction false} LatestIsNewest(ds: seq<Delivery>)
    ensures Newest(ds, Latest(ds))
  {
    if |ds| > 0 {
      var front := ds[..|ds| - 1];
      LatestIsNewest(front);
      if Latest(ds) == Latest(front) && Latest(front) != 0 {
        var i :| 0 <= i < |front| && front[i].at == Latest(front);
        assert ds[i].at == Latest(ds);
      }
    }
  }

  lemma {:induction false} NewestIsLatest(ds: seq<Delivery>, t: nat)
    requires Newest(ds, t)
    ensures t == Latest(ds)
  {
    LatestIsNewest(ds);
  }

  predicate Distinct(ds: seq<Delivery>) { forall i, j :: 0 <= i < j < |ds| ==> ds[i].id != ds[j].id }

  lemma SeenExtends(front: seq<Delivery>, d: Delivery, id: string)
    ensures Seen(front + [d], id) <==> Seen(front, id) || id == d.id
  {
    var ds := front + [d];
    assert ds[|front|] == d;
    if Seen(front, id) {
      var i :| 0 <= i < |front| && front[i].id == id;
      assert ds[i].id == id;
    }
  }

  lemma {:induction false} FirstsExtend(front: seq<Delivery>, d: Delivery)
    ensures Firsts(front + [d]) == if Seen(front, d.id) then Firsts(front) else Firsts(front) + [d]
  {
    assert (front + [d])[..|front|] == front;
  }

  /** Every event is there, once. */
  lemma {:induction false} FirstsAreDistinct(ds: seq<Delivery>)
    ensures Distinct(Firsts(ds))
    ensures forall id :: Seen(ds, id) <==> Seen(Firsts(ds), id)
  {
    if |ds| > 0 {
      var front, d := ds[..|ds| - 1], ds[|ds| - 1];
      FirstsAreDistinct(front);
      FirstsExtend(front, d);
      assert ds == front + [d];
      forall id ensures Seen(ds, id) <==> Seen(Firsts(ds), id) {
        SeenExtends(front, d, id);
        SeenExtends(Firsts(front), d, id);
      }
    }
  }

  predicate FirstAt(ds: seq<Delivery>, d: Delivery, i: nat) { i < |ds| && ds[i] == d && !Seen(ds[..i], d.id) }

  /** And at the place where it was first delivered. */
  lemma {:induction false} FirstWitness(ds: seq<Delivery>, d: Delivery) returns (i: nat)
    requires d in Firsts(ds)
    ensures FirstAt(ds, d, i)
  {
    var front, last := ds[..|ds| - 1], ds[|ds| - 1];
    if d in Firsts(front) {
      i := FirstWitness(front, d);
      assert front[..i] == ds[..i];
    } else {
      i := |front|;
    }
  }

  lemma {:induction false} FirstIsIn(ds: seq<Delivery>, d: Delivery, i: nat)
    requires FirstAt(ds, d, i)
    ensures d in Firsts(ds)
  {
    var front := ds[..|ds| - 1];
    if i < |front| {
      assert front[..i] == ds[..i];
      FirstIsIn(front, d, i);
    }
  }

  /** Of each event's deliveries, the one delivered first. */
  lemma {:induction false} FirstsAreFirst(ds: seq<Delivery>, d: Delivery)
    ensures d in Firsts(ds) <==> exists i: nat :: FirstAt(ds, d, i)
  {
    if d in Firsts(ds) {
      var i := FirstWitness(ds, d);
    }
    if i: nat :| FirstAt(ds, d, i) {
      FirstIsIn(ds, d, i);
    }
  }

  lemma {:induction false} FirstsAreDelivered(ds: seq<Delivery>, d: Delivery)
    requires d in Firsts(ds)
    ensures d in ds
  {
    var i := FirstWitness(ds, d);
  }

  /** The window holds each event whose first delivery lies in the period that ends at the newest first
      delivery, with the time of that delivery, and nothing else. */
  predicate Exact(w: Window, firsts: seq<Delivery>, period: int) {
    && Newest(firsts, w.newest)
    && (forall id :: id in w.events ==> Held(Delivery(id, w.events[id]), firsts, w.newest, period))
    && (forall d :: d in firsts && InWindow(d, w.newest, period) ==> d.id in w.events)
  }

  predicate Held(d: Delivery, firsts: seq<Delivery>, newest: nat, period: int) {
    d in firsts && InWindow(d, newest, period)
  }

  lemma Same(ds: seq<Delivery>, d: Delivery, e: Delivery)
    requires Distinct(ds) && d in ds && e in ds && d.id == e.id
    ensures d == e
  {
  }

  lemma AdmittedNewest(w: Window, firsts: seq<Delivery>, d: Delivery, period: int)
    requires Exact(w, firsts, period) && Distinct(firsts + [d])
    ensures d.id !in w.events && w.newest <= Admitted(w, d).newest && Newest(firsts + [d], Admitted(w, d).newest)
  {
    var ds := firsts + [d];
    assert ds[|firsts|] == d && forall i :: 0 <= i < |firsts| ==> ds[i] == firsts[i];
    assert forall e :: e in firsts ==> e.id != d.id;
    if w.newest != 0 {
      var i :| 0 <= i < |firsts| && firsts[i].at == w.newest;
      assert ds[i].at == w.newest;
    }
  }

  /** A first delivery is added, and what it pushes out of the window goes. */
  lemma FirstDelivery(w: Window, firsts: seq<Delivery>, d: Delivery, period: int)
    requires Exact(w, firsts, period) && Distinct(firsts + [d])
    ensures Exact(Observed(w, period, d), firsts + [d], period)
  {
    var ds, a := firsts + [d], Admitted(w, d);
    AdmittedNewest(w, firsts, d, period);
    forall id | id in a.events ensures Delivery(id, a.events[id]) in ds {
      if id != d.id { assert Held(Delivery(id, w.events[id]), firsts, w.newest, period); }
    }
    forall e | e in ds && InWindow(e, a.newest, period) ensures e.id in a.events && a.events[e.id] == e.at {
      if e in firsts { assert e.id in w.events; }
      Same(ds, e, Delivery(e.id, a.events[e.id]));
    }
  }

  /** A redelivery of an event whose first delivery has left the window, with a time that lies in the window
      or moves it. */
  predicate Revives(front: seq<Delivery>, d: Delivery, period: int) {
    var firsts := Firsts(front);
    && (exists e :: e in firsts && Late(e, d, Latest(firsts), period))
    && (InWindow(d, Latest(firsts), period) || d.at > Latest(firsts))
  }

  predicate Late(first: Delivery, d: Delivery, newest: nat, period: int) {
    first.id == d.id && !InWindow(first, newest, period)
  }

  lemma RepeatHeld(w: Window, firsts: seq<Delivery>, e: Delivery, d: Delivery, period: int)
    requires Exact(w, firsts, period) && Distinct(firsts) && e in firsts && e.id == d.id
    ensures d.id in w.events <==> InWindow(e, w.newest, period)
  {
    if d.id in w.events { Same(firsts, e, Delivery(d.id, w.events[d.id])); }
  }

  lemma ExactIsExpired(w: Window, firsts: seq<Delivery>, period: int)
    requires Exact(w, firsts, period)
    ensures Expired(w, period) == w
  {
    assert forall id :: id in w.events ==> Held(Delivery(id, w.events[id]), firsts, w.newest, period);
    assert Expired(w, period).events == w.events;
  }

  /** Any other redelivery changes nothing. */
  lemma HarmlessRepeat(w: Window, firsts: seq<Delivery>, e: Delivery, d: Delivery, period: int)
    requires Exact(w, firsts, period) && Distinct(firsts) && e in firsts && e.id == d.id
    requires Late(e, d, w.newest, period) ==> !InWindow(d, w.newest, period) && d.at <= w.newest
    ensures Observed(w, period, d) == w
  {
    RepeatHeld(w, firsts, e, d, period);
    ExactIsExpired(w, firsts, period);
    if d.id !in w.events {
      assert Expired(Admitted(w, d), period).events == w.events;
    }
  }

  lemma RevivalShows(w: Window, firsts: seq<Delivery>, e: Delivery, d: Delivery, period: int)
    requires Exact(w, firsts, period) && Distinct(firsts) && e in firsts && Late(e, d, w.newest, period)
    requires InWindow(d, w.newest, period) || d.at > w.newest
    ensures !Exact(Observed(w, period, d), firsts, period)
  {
    RepeatHeld(w, firsts, e, d, period);
    var o := Observed(w, period, d);
    if d.at > w.newest {
      assert o.newest == d.at;
      NewestIsLatest(firsts, w.newest);
      if Newest(firsts, o.newest) { NewestIsLatest(firsts, o.newest); }
    } else {
      assert o.newest == w.newest && d.id in o.events && o.events[d.id] == d.at;
      if Held(d, firsts, o.newest, period) { Same(firsts, e, d); }
      assert !Held(Delivery(d.id, o.events[d.id]), firsts, o.newest, period);
    }
  }

  /** With the first delivery at hand, a revival is what it and the redelivery say. */
  lemma {:induction false} RevivesBy(front: seq<Delivery>, e: Delivery, d: Delivery, period: int)
    requires e in Firsts(front) && e.id == d.id
    ensures var newest := Latest(Firsts(front));
            Revives(front, d, period) <==> Late(e, d, newest, period) && (InWindow(d, newest, period) || d.at > newest)
  {
    FirstsAreDistinct(front);
    forall f | f in Firsts(front) && f.id == d.id ensures f == e {
      Same(Firsts(front), e, f);
    }
  }

  lemma {:induction false} RepeatKeepsExact(w: Window, front: seq<Delivery>, e: Delivery, d: Delivery, period: int)
    requires Exact(w, Firsts(front), period) && e in Firsts(front) && e.id == d.id
    ensures Exact(Observed(w, period, d), Firsts(front), period) <==> !Revives(front, d, period)
  {
    var firsts := Firsts(front);
    FirstsAreDistinct(front);
    NewestIsLatest(firsts, w.newest);
    RevivesBy(front, e, d, period);
    if Revives(front, d, period) {
      RevivalShows(w, firsts, e, d, period);
    } else {
      HarmlessRepeat(w, firsts, e, d, period);
    }
  }

  /** One delivery leaves an exact window exact if and only if it revives nothing. */
  lemma {:induction false} DeliveryKeepsExact(w: Window, front: seq<Delivery>, d: Delivery, period: int)
    requires Exact(w, Firsts(front), period)
    ensures Exact(Observed(w, period, d), Firsts(front + [d]), period) <==> !Revives(front, d, period)
  {
    var firsts := Firsts(front);
    FirstsAreDistinct(front);
    FirstsExtend(front, d);
    if Seen(firsts, d.id) {
      var k :| 0 <= k < |firsts| && firsts[k].id == d.id;
      RepeatKeepsExact(w, front, firsts[k], d, period);
    } else {
      NewIsDistinct(firsts, d);
      FirstDelivery(w, firsts, d, period);
    }
  }

  lemma NewIsDistinct(firsts: seq<Delivery>, d: Delivery)
    requires Distinct(firsts) && !Seen(firsts, d.id)
    ensures Distinct(firsts + [d]) && forall f :: f in firsts ==> f.id != d.id
  {
  }

  predicate NoRevival(ds: seq<Delivery>, period: int) { forall j :: 0 <= j < |ds| ==> !Revives(ds[..j], ds[j], period) }

  predicate ExactAt(ds: seq<Delivery>, period: int, n: nat)
    requires n <= |ds|
  {
    Exact(After(ds[..n], period), Firsts(ds[..n]), period)
  }

  lemma ExactNext(ds: seq<Delivery>, period: int, n: nat)
    requires n < |ds| && ExactAt(ds, period, n)
    ensures ExactAt(ds, period, n + 1) <==> !Revives(ds[..n], ds[n], period)
  {
    assert ds[..n + 1] == ds[..n] + [ds[n]] && ds[..n + 1][..n] == ds[..n];
    DeliveryKeepsExact(After(ds[..n], period), ds[..n], ds[n], period);
  }

  lemma {:induction false} NoRevivalIsExact(ds: seq<Delivery>, period: int, n: nat)
    requires NoRevival(ds, period) && n <= |ds|
    ensures ExactAt(ds, period, n)
  {
    if n > 0 {
      NoRevivalIsExact(ds, period, n - 1);
      ExactNext(ds, period, n - 1);
    }
  }

  /** For deliveries in any order, with any repetitions and any times: after every one of them the window is
      exact, if and only if none of them revives an event. */
  lemma {:induction false} ExactExactlyWhen(ds: seq<Delivery>, period: int)
    ensures (forall n :: 0 <= n <= |ds| ==> ExactAt(ds, period, n)) <==> NoRevival(ds, period)
  {
    if NoRevival(ds, period) {
      forall n | 0 <= n <= |ds| ensures ExactAt(ds, period, n) {
        NoRevivalIsExact(ds, period, n);
      }
    }
    if forall n :: 0 <= n <= |ds| ==> ExactAt(ds, period, n) {
      forall j | 0 <= j < |ds| ensures !Revives(ds[..j], ds[j], period) {
        assert ExactAt(ds, period, j) && ExactAt(ds, period, j + 1);
        ExactNext(ds, period, j);
      }
    }
  }

  /** An exact window counts each event whose first delivery is recent, once. */
  lemma {:induction false} ExactCounts(w: Window, firsts: seq<Delivery>, period: int)
    requires Exact(w, firsts, period)
    ensures w.newest == Latest(firsts) && w.events.Keys == Recent(firsts, w.newest, period)
    ensures |w.events| == |Recent(firsts, w.newest, period)|
  {
    NewestIsLatest(firsts, w.newest);
    forall id ensures id in w.events.Keys <==> id in Recent(firsts, w.newest, period) {
      if id in w.events { assert Held(Delivery(id, w.events[id]), firsts, w.newest, period); }
    }
  }

  // ------------------------------------------------------------ two special cases

  predicate NonDecreasing(ds: seq<Delivery>) { forall i, j :: 0 <= i < j < |ds| ==> ds[i].at <= ds[j].at }

  /** A redelivery after the first delivery has left the window. */
  predicate LateRepeat(front: seq<Delivery>, d: Delivery, period: int) {
    exists e :: e in Firsts(front) && Late(e, d, Latest(Firsts(front)), period)
  }

  lemma {:induction false} LatestFirst(front: seq<Delivery>)
    ensures Newest(Firsts(front), Latest(Firsts(front)))
    ensures Latest(Firsts(front)) == 0 || exists i :: 0 <= i < |front| && front[i].at == Latest(Firsts(front))
  {
    var firsts := Firsts(front);
    LatestIsNewest(firsts);
    if Latest(firsts) != 0 {
      var k :| 0 <= k < |firsts| && firsts[k].at == Latest(firsts);
      FirstsAreDelivered(front, firsts[k]);
    }
  }

  /** When times come from one clock, the events revived are those redelivered late. */
  lemma OneClock(ds: seq<Delivery>, period: nat)
    requires NonDecreasing(ds)
    ensures NoRevival(ds, period) <==> forall j :: 0 <= j < |ds| ==> !LateRepeat(ds[..j], ds[j], period)
  {
    forall j | 0 <= j < |ds| ensures Revives(ds[..j], ds[j], period) <==> LateRepeat(ds[..j], ds[j], period) {
      LatestFirst(ds[..j]);
      assert InWindow(ds[j], Latest(Firsts(ds[..j])), period);
    }
  }

  /** Every delivery of an event carries the same time. */
  predicate Consistent(ds: seq<Delivery>) {
    forall i, j :: 0 <= i < |ds| && 0 <= j < |ds| && ds[i].id == ds[j].id ==> ds[i].at == ds[j].at
  }

  lemma {:induction false} ConsistentFirst(ds: seq<Delivery>, d: Delivery)
    requires Consistent(ds)
    ensures d in ds <==> d in Firsts(ds)
  {
    if d in Firsts(ds) {
      FirstsAreDelivered(ds, d);
    } else if d in ds {
      FirstsAreDistinct(ds);
      assert Seen(ds, d.id);
      var k :| 0 <= k < |Firsts(ds)| && Firsts(ds)[k].id == d.id;
      FirstsAreDelivered(ds, Firsts(ds)[k]);
    }
  }

  lemma ConsistentRevivesNothing(ds: seq<Delivery>, period: int)
    requires Consistent(ds)
    ensures NoRevival(ds, period)
  {
    forall j | 0 <= j < |ds| ensures !Revives(ds[..j], ds[j], period) {
      LatestFirst(ds[..j]);
      forall e | e in Firsts(ds[..j]) && e.id == ds[j].id ensures e == ds[j] {
        FirstsAreDelivered(ds[..j], e);
      }
    }
  }

  /** With one time per event, the window counts each event delivered in the period that ends at the newest
      time, once. */
  lemma {:induction false} CountIsBruteForce(ds: seq<Delivery>, period: int)
    requires Consistent(ds)
    ensures Newest(ds, After(ds, period).newest)
    ensures After(ds, period).events.Keys == Recent(ds, After(ds, period).newest, period)
    ensures |After(ds, period).events| == |Recent(ds, After(ds, period).newest, period)|
  {
    var w, firsts := After(ds, period), Firsts(ds);
    ConsistentRevivesNothing(ds, period);
    NoRevivalIsExact(ds, period, |ds|);
    assert ds[..|ds|] == ds;
    ExactCounts(w, firsts, period);
    forall d ensures d in ds <==> d in firsts {
      ConsistentFirst(ds, d);
    }
    SameNewest(firsts, ds, w.newest);
    SameRecent(firsts, ds, w.newest, period);
  }

  lemma SameRecent(a: seq<Delivery>, b: seq<Delivery>, t: nat, period: int)
    requires forall d :: d in a <==> d in b
    ensures Recent(a, t, period) == Recent(b, t, period)
  {
  }

  lemma SameNewest(a: seq<Delivery>, b: seq<Delivery>, t: nat)
    requires Newest(a, t) && forall d :: d in a <==> d in b
    ensures Newest(b, t)
  {
    forall i | 0 <= i < |b| ensures b[i].at <= t {
      assert b[i] in a;
    }
    if t != 0 {
      var i :| 0 <= i < |a| && a[i].at == t;
      assert a[i] in b;
    }
  }

  /** A revival: an event that has expired is counted again when redelivered with a later time. */
  lemma {:induction false} RedeliveryRejuvenates(id: string, other: string, at: nat, later: nat, period: nat)
    requires id != other && at + period < later
    ensures var ds := [Delivery(id, at), Delivery(other, later), Delivery(id, later)];
            id !in After(ds[..2], period).events && id in After(ds, period).events
  {
    var ds := [Delivery(id, at), Delivery(other, later), Delivery(id, later)];
    assert ds[..2] == [Delivery(id, at), Delivery(other, later)];
    assert ds[..2][..1] == [Delivery(id, at)] && ds[..2][..1][..0] == [];
    var one := Observed(FRESH, period, Delivery(id, at));
    assert After(ds[..2][..1], period) == one;
    assert After(ds[..2], period) == Observed(one, period, Delivery(other, later));
  }
}
