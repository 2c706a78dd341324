/** Which events ask for the same capture. */
module Dedup {
  import opened Options
  import opened StableKeys
  import opened Units

  datatype Endpoint = Endpoint(ip: string, port: Option<nat>)

  datatype Flow = Flow(protocol: string, source: Endpoint, destination: Endpoint)

  function EndpointKey(e: Endpoint): string {
    match e.port
    case None => e.ip
    case Some(n) => e.ip + [':'] + Decimal(n)
  }

  predicate Less(a: string, b: string) {
    if |b| == 0 then false else if |a| == 0 then true else if a[0] != b[0] then a[0] < b[0] else Less(a[1..], b[1..])
  }

  lemma {:induction false} LessIsTotal(a: string, b: string)
    ensures !(Less(a, b) && Less(b, a)) && (a == b || Less(a, b) || Less(b, a))
  {
    if |a| > 0 && |b| > 0 && a[0] == b[0] {
      LessIsTotal(a[1..], b[1..]);
      assert a == [a[0]] + a[1..] && b == [b[0]] + b[1..];
    }
  }

  /** String order: a proper prefix comes first, and otherwise the first difference decides. */
  lemma {:induction false} LessMeans(a: string, b: string)
    ensures Less(a, b) <==>
            a < b || exists k :: 0 <= k < |a| && k < |b| && a[..k] == b[..k] && a[k] < b[k]
  {
    if |a| > 0 && |b| > 0 && a[0] == b[0] {
      var x, y := a[1..], b[1..];
      LessMeans(x, y);
      assert a == [a[0]] + x && b == [b[0]] + y;
      if k :| 0 <= k < |x| && k < |y| && x[..k] == y[..k] && x[k] < y[k] {
        assert a[..k + 1] == [a[0]] + x[..k] && b[..k + 1] == [b[0]] + y[..k];
        assert a[..k + 1] == b[..k + 1] && a[k + 1] < b[k + 1];
      }
      if k :| 0 <= k < |a| && k < |b| && a[..k] == b[..k] && a[k] < b[k] {
        assert x[..k - 1] == a[..k][1..] && y[..k - 1] == b[..k][1..];
        assert x[k - 1] < y[k - 1];
      }
    } else if |a| > 0 && |b| > 0 && a[0] < b[0] {
      assert a[..0] == b[..0];
    }
  }

  /** Protocol and the two endpoints in string order; the empty string for no flow. */
  function FlowKey(flow: Option<Flow>): string {
    match flow
    case None => ""
    case Some(f) =>
      var a, b := EndpointKey(f.source), EndpointKey(f.destination);
      if Less(b, a) then f.protocol + ['|'] + (b + ['|'] + a) else f.protocol + ['|'] + (a + ['|'] + b)
  }

  function Reversed(f: Flow): Flow { Flow(f.protocol, f.destination, f.source) }

  lemma DirectionNeutral(f: Flow)
    ensures FlowKey(Some(f)) == FlowKey(Some(Reversed(f)))
  {
    LessIsTotal(EndpointKey(f.source), EndpointKey(f.destination));
  }

  predicate Clean(e: Endpoint) { Without(e.ip, '|') }

  lemma CleanKey(e: Endpoint)
    requires Clean(e)
    ensures Without(EndpointKey(e), '|')
  {
    if e.port.Some? { DecimalWithout(e.port.value, '|'); }
  }

  /** The two endpoint keys in string order. */
  function Ends(f: Flow): (string, string) {
    var a, b := EndpointKey(f.source), EndpointKey(f.destination);
    if Less(b, a) then (b, a) else (a, b)
  }

  /** The key spells the protocol, then the endpoint that comes first, then the other. */
  lemma FlowKeySpells(f: Flow)
    ensures FlowKey(Some(f)) == f.protocol + "|" + (Ends(f).0 + "|" + Ends(f).1)
    ensures multiset{Ends(f).0, Ends(f).1} == multiset{EndpointKey(f.source), EndpointKey(f.destination)}
    ensures !Less(Ends(f).1, Ends(f).0)
  {
    LessIsTotal(EndpointKey(f.source), EndpointKey(f.destination));
  }

  predicate SameConversation(f: Flow, g: Flow) {
    && f.protocol == g.protocol
    && ((EndpointKey(f.source) == EndpointKey(g.source) && EndpointKey(f.destination) == EndpointKey(g.destination))
        || (EndpointKey(f.source) == EndpointKey(g.destination) && EndpointKey(f.destination) == EndpointKey(g.source)))
  }

  /** An event without a flow shares its key with no event that has one. */
  lemma NoFlowIsApart(f: Flow)
    ensures FlowKey(None) != FlowKey(Some(f))
  {
  }

  lemma SameEnds(f: Flow, g: Flow)
    ensures f.protocol == g.protocol && Ends(f) == Ends(g) <==> SameConversation(f, g)
  {
    LessIsTotal(EndpointKey(f.source), EndpointKey(f.destination));
    LessIsTotal(EndpointKey(g.source), EndpointKey(g.destination));
  }

  /** Different texts that join to the same one: a separator inside a text is read as the one between them. */
  predicate FlowsBlur(f: Flow, g: Flow) {
    || Blur(f.protocol, Ends(f).0 + ['|'] + Ends(f).1, g.protocol, Ends(g).0 + ['|'] + Ends(g).1, '|')
    || (f.protocol == g.protocol && Blur(Ends(f).0, Ends(f).1, Ends(g).0, Ends(g).1, '|'))
  }

  /** Two flows share a key exactly when their endpoints, in either direction, spell the same, or a separator
      inside one of their texts makes them read alike. */
  lemma FlowKeysCollideExactlyWhen(f: Flow, g: Flow)
    ensures FlowKey(Some(f)) == FlowKey(Some(g)) <==> SameConversation(f, g) || FlowsBlur(f, g)
  {
    var a, b := Ends(f), Ends(g);
    JoinedAlike(f.protocol, a.0 + ['|'] + a.1, g.protocol, b.0 + ['|'] + b.1, '|');
    JoinedAlike(a.0, a.1, b.0, b.1, '|');
    SameEnds(f, g);
  }

  /** In texts free of the separator nothing blurs. */
  lemma FlowKeyIdentifies(f: Flow, g: Flow)
    requires Without(f.protocol, '|') && Without(g.protocol, '|')
    requires Clean(f.source) && Clean(f.destination) && Clean(g.source) && Clean(g.destination)
    ensures FlowKey(Some(f)) == FlowKey(Some(g)) <==> SameConversation(f, g)
  {
    CleanKey(f.source);
    CleanKey(f.destination);
    CleanKey(g.source);
    CleanKey(g.destination);
    FlowKeysCollideExactlyWhen(f, g);
    WithoutIsSharp(f.protocol, Ends(f).0 + ['|'] + Ends(f).1, g.protocol, Ends(g).0 + ['|'] + Ends(g).1, '|');
    WithoutIsSharp(Ends(f).0, Ends(f).1, Ends(g).0, Ends(g).1, '|');
  }

  predicate SpellsPort(a: Endpoint, b: Endpoint) {
    a.port.None? && b.port.Some? && a.ip == b.ip + [':'] + Decimal(b.port.value)
  }

  /** Endpoints are told apart unless one has no port and an address that reads as the other with its
      port, as some IPv6 addresses do. */
  lemma EndpointKeysCollideExactlyWhen(a: Endpoint, b: Endpoint)
    ensures EndpointKey(a) == EndpointKey(b) <==> a == b || SpellsPort(a, b) || SpellsPort(b, a)
  {
    if a.port.Some? && b.port.Some? && EndpointKey(a) == EndpointKey(b) {
      DecimalWithout(a.port.value, ':');
      DecimalWithout(b.port.value, ':');
      CutAtLast(a.ip, b.ip, Decimal(a.port.value), Decimal(b.port.value), ':');
      DecimalInjective(a.port.value, b.port.value);
    }
  }

  lemma EndpointCollision()
    ensures EndpointKey(Endpoint("::1:5", None)) == EndpointKey(Endpoint("::1", Some(5)))
  {
    assert Decimal(5) == "5";
  }

  // ------------------------------------------------------------ cooldown buckets

  /** Nanoseconds since the zero time, rounded down to a multiple of d; unchanged when d is not positive. */
  function Truncate(at: nat, d: int): (t: nat)
    ensures t <= at
  {
    if d <= 0 then at else at - at % d
  }

  function Bucket(at: nat, cooldown: int): nat { Truncate(at, cooldown) / SECOND }

  predicate SameWindow(a: nat, b: nat, cooldown: int)
    requires cooldown > 0
  {
    a / cooldown == b / cooldown
  }

  lemma TruncateIsMultiple(at: nat, d: int)
    requires d > 0
    ensures Truncate(at, d) == (at / d) * d
  {
  }

  lemma Apart(m: nat, n: nat, d: nat)
    requires m < n
    ensures m * d + d <= n * d
  {
    assert (n - m - 1) * d >= 0;
    assert n * d == m * d + d + (n - m - 1) * d;
  }

  lemma WindowsShareNoBucket(a: nat, b: nat, cooldown: int)
    requires cooldown >= SECOND
    ensures Bucket(a, cooldown) == Bucket(b, cooldown) <==> SameWindow(a, b, cooldown)
  {
    TruncateIsMultiple(a, cooldown);
    TruncateIsMultiple(b, cooldown);
    var m, n := a / cooldown, b / cooldown;
    if m < n { Apart(m, n, cooldown); }
    if n < m { Apart(n, m, cooldown); }
  }

  lemma FirstWindowsMerge(cooldown: int)
    requires 0 < cooldown < SECOND
    ensures Bucket(0, cooldown) == Bucket(cooldown, cooldown) && !SameWindow(0, cooldown, cooldown)
  {
    TruncateIsMultiple(cooldown, cooldown);
    assert cooldown / cooldown == 1;
  }

  /** Buckets are cooldown windows exactly when the cooldown is a second or more. */
  lemma BucketIsWindow(cooldown: int)
    requires cooldown > 0
    ensures (forall a: nat, b: nat :: Bucket(a, cooldown) == Bucket(b, cooldown) <==> SameWindow(a, b, cooldown))
            <==> cooldown >= SECOND
  {
    if cooldown >= SECOND {
      forall a: nat, b: nat ensures Bucket(a, cooldown) == Bucket(b, cooldown) <==> SameWindow(a, b, cooldown) {
        WindowsShareNoBucket(a, b, cooldown);
      }
    } else {
      FirstWindowsMerge(cooldown);
    }
  }

  /** A bucket is the whole second in which the event's cooldown window begins; without a cooldown, the one in
      which the event happened. */
  lemma BucketMeans(at: nat, cooldown: int) returns (begin: nat)
    ensures cooldown <= 0 ==> begin == at
    ensures cooldown > 0 ==> begin <= at < begin + cooldown && begin % cooldown == 0
    ensures Bucket(at, cooldown) * SECOND <= begin < (Bucket(at, cooldown) + 1) * SECOND
  {
    begin := Truncate(at, cooldown);
    if cooldown > 0 {
      TruncateIsMultiple(at, cooldown);
      assert begin == (at / cooldown) * cooldown + 0;
      Remainder(at / cooldown, cooldown);
    }
  }

  lemma Remainder(q: nat, d: int)
    requires d > 0
    ensures (q * d) % d == 0
  {
    var r := (q * d) % d;
    var p := (q * d) / d;
    assert q * d == p * d + r && 0 <= r < d;
    if q < p { Apart(q, p, d); }
    if p < q { Apart(p, q, d); }
  }

  // ------------------------------------------------------------ the key

  function KeyTail(flow: Option<Flow>, at: nat, cooldown: int): string {
    FlowKey(flow) + ['\0'] + Decimal(Bucket(at, cooldown))
  }

  function DeduplicationKey(tap: string, flow: Option<Flow>, at: nat, cooldown: int): string {
    tap + ['\0'] + KeyTail(flow, at, cooldown)
  }

  /** Two events share a key exactly when tap, conversation key and bucket are the same, or a NUL inside a tap
      or a conversation key makes them read alike. */
  lemma KeysCollideExactlyWhen(s: string, f: Option<Flow>, a: nat, c: int, t: string, g: Option<Flow>, b: nat, d: int)
    ensures DeduplicationKey(s, f, a, c) == DeduplicationKey(t, g, b, d) <==>
            || (s == t && FlowKey(f) == FlowKey(g) && Bucket(a, c) == Bucket(b, d))
            || Blur(s, KeyTail(f, a, c), t, KeyTail(g, b, d), '\0')
  {
    JoinedAlike(s, KeyTail(f, a, c), t, KeyTail(g, b, d), '\0');
    var m, n := Bucket(a, c), Bucket(b, d);
    DecimalWithout(m, '\0');
    DecimalWithout(n, '\0');
    if KeyTail(f, a, c) == KeyTail(g, b, d) {
      CutAtLast(FlowKey(f), FlowKey(g), Decimal(m), Decimal(n), '\0');
      DecimalInjective(m, n);
    }
  }

  /** In taps free of NUL the key says which tap, which conversation and which bucket. */
  lemma KeyIdentifies(s: string, f: Option<Flow>, a: nat, c: int, t: string, g: Option<Flow>, b: nat, d: int)
    requires Without(s, '\0') && Without(t, '\0')
    ensures DeduplicationKey(s, f, a, c) == DeduplicationKey(t, g, b, d)
            <==> s == t && FlowKey(f) == FlowKey(g) && Bucket(a, c) == Bucket(b, d)
  {
    KeysCollideExactlyWhen(s, f, a, c, t, g, b, d);
    WithoutIsSharp(s, KeyTail(f, a, c), t, KeyTail(g, b, d), '\0');
  }
}
