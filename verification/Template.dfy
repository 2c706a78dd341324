/**
 Filter templates: what is checked when a policy is written, and what is rendered when it fires.

 Strings are sequences of code points; lengths that the checks bound are in bytes of UTF-8.  An address
 is given by its canonical text, absent when it does not parse or carries a zone.
 */
module Template {
  import opened Options
  import opened StableKeys

  // ------------------------------------------------------------ scanning

  datatype Piece = Text(c: char) | Hole(raw: string)

  predicate Brace(c: char) { c == '{' || c == '}' }

  /** Length of the leading run without braces. */
  function Plain(s: string): (n: nat)
    ensures n <= |s|
  {
    if |s| == 0 || Brace(s[0]) then 0 else 1 + Plain(s[1..])
  }

  /** Length of the placeholder at the front, zero if there is none. */
  function HoleLength(s: string): (n: nat)
    ensures n == 0 || 4 <= n <= |s|
  {
    if |s| < 2 || s[0] != '{' || s[1] != '{' then 0
    else
      var n := Plain(s[2..]);
      if n + 4 <= |s| && s[n + 2] == '}' && s[n + 3] == '}' then n + 4 else 0
  }

  /** Leftmost placeholders, not overlapping, and the characters between them. */
  function Scan(s: string): seq<Piece> {
    if |s| == 0 then []
    else
      var n := HoleLength(s);
      if n > 0 then [Hole(s[2..n - 2])] + Scan(s[n..]) else [Text(s[0])] + Scan(s[1..])
  }

  function SpellPiece(p: Piece): string {
    match p
    case Text(c) => [c]
    case Hole(raw) => ['{', '{'] + raw + ['}', '}']
  }

  function Spell(ps: seq<Piece>): string { if |ps| == 0 then [] else SpellPiece(ps[0]) + Spell(ps[1..]) }

  lemma {:induction false} SpellCons(s: string, n: nat, p: Piece, ps: seq<Piece>)
    requires n <= |s| && SpellPiece(p) == s[..n] && Spell(ps) == s[n..]
    ensures Spell([p] + ps) == s
  {
    assert ([p] + ps)[1..] == ps;
    assert s == s[..n] + s[n..];
  }

  /** The first piece, and how much of the text it spells. */
  lemma FirstPiece(s: string) returns (p: Piece, n: nat)
    requires |s| > 0
    ensures 0 < n <= |s| && Scan(s) == [p] + Scan(s[n..]) && SpellPiece(p) == s[..n]
  {
    n := HoleLength(s);
    if n > 0 {
      p := Hole(s[2..n - 2]);
      assert s[..2] == ['{', '{'] && s[n - 2..n] == ['}', '}'];
      assert s[..n] == s[..2] + s[2..n - 2] + s[n - 2..n];
    } else {
      p, n := Text(s[0]), 1;
    }
  }

  /** Scanning loses nothing. */
  lemma {:induction false} ScanSpells(s: string)
    ensures Spell(Scan(s)) == s
  {
    if |s| > 0 {
      var p, n := FirstPiece(s);
      ScanSpells(s[n..]);
      SpellCons(s, n, p, Scan(s[n..]));
    }
  }

  predicate BraceFree(s: string) { forall i :: 0 <= i < |s| ==> !Brace(s[i]) }

  function Placeholder(raw: string): string { "{{" + raw + "}}" }

  lemma {:induction false} PlainStopsAt(s: string, t: string)
    requires |t| > 0 && Brace(t[0])
    ensures Plain(s + t) == Plain(s) && (BraceFree(s) ==> Plain(s) == |s|)
  {
    if |s| > 0 && !Brace(s[0]) {
      assert (s + t)[1..] == s[1..] + t;
      PlainStopsAt(s[1..], t);
      assert BraceFree(s) ==> BraceFree(s[1..]);
    } else if s == [] {
      assert s + t == t;
    }
  }

  lemma {:induction false} PlainIsPlain(s: string)
    ensures BraceFree(s[..Plain(s)]) && (Plain(s) < |s| ==> Brace(s[Plain(s)]))
  {
    if |s| > 0 && !Brace(s[0]) {
      PlainIsPlain(s[1..]);
      assert s[..Plain(s)] == [s[0]] + s[1..][..Plain(s[1..])];
    }
  }

  lemma {:induction false} PlaceholderInFront(raw: string, b: string)
    requires BraceFree(raw)
    ensures HoleLength(Placeholder(raw) + b) == |raw| + 4
  {
    var s := Placeholder(raw) + b;
    assert s[2..] == raw + ("}}" + b);
    PlainStopsAt(raw, "}}" + b);
  }

  /** What follows a text does not change whether it begins with a placeholder. */
  lemma {:induction false} PlaceholderFollows(a: string, t: string)
    requires |a| > 0 && |t| >= 2 && t[0] == '{' && t[1] == '{'
    ensures HoleLength(a + t) == HoleLength(a)
  {
    var s := a + t;
    if |a| >= 2 && a[0] == '{' && a[1] == '{' {
      assert s[2..] == a[2..] + t;
      PlainStopsAt(a[2..], t);
    } else if |a| == 1 && a[0] == '{' {
      assert s[2..] == t[1..] && Plain(t[1..]) == 0;
    }
  }

  lemma {:induction false} ScanStep(a: string, t: string) returns (p: Piece, m: nat)
    requires |a| > 0 && |t| >= 2 && t[0] == '{' && t[1] == '{'
    ensures 0 < m <= |a| && Scan(a) == [p] + Scan(a[m..]) && Scan(a + t) == [p] + Scan(a[m..] + t)
  {
    PlaceholderFollows(a, t);
    var n := HoleLength(a);
    m := if n > 0 then n else 1;
    p := if n > 0 then Hole(a[2..n - 2]) else Text(a[0]);
    TailOf(a, t, m);
    assert n > 0 ==> (a + t)[2..n - 2] == a[2..n - 2];
  }

  lemma ConsJoins(p: Piece, x: seq<Piece>, y: seq<Piece>)
    ensures [p] + (x + y) == ([p] + x) + y
  {
  }

  lemma TailOf(a: string, t: string, m: nat)
    requires m <= |a|
    ensures (a + t)[m..] == a[m..] + t
  {
  }

  lemma {:induction false} ScanSplits(a: string, t: string)
    requires |t| >= 2 && t[0] == '{' && t[1] == '{'
    ensures Scan(a + t) == Scan(a) + Scan(t)
    decreases |a|
  {
    if a == [] {
      assert a + t == t;
    } else {
      var p, m := ScanStep(a, t);
      ScanSplits(a[m..], t);
      ConsJoins(p, Scan(a[m..]), Scan(t));
    }
  }

  lemma {:induction false} ScanPlaceholder(raw: string, b: string)
    requires BraceFree(raw)
    ensures Scan(Placeholder(raw) + b) == [Hole(raw)] + Scan(b)
  {
    var s := Placeholder(raw) + b;
    PlaceholderInFront(raw, b);
    assert s[2..|raw| + 2] == raw && s[|raw| + 4..] == b;
  }

  /** Every placeholder in a text is found: whatever is on either side of it is scanned by itself. */
  lemma {:induction false} ScanFindsEvery(a: string, raw: string, b: string)
    requires BraceFree(raw)
    ensures Scan(a + (Placeholder(raw) + b)) == Scan(a) + ([Hole(raw)] + Scan(b))
  {
    ScanSplits(a, Placeholder(raw) + b);
    ScanPlaceholder(raw, b);
  }

  lemma {:induction false} FirstHole(s: string)
    requires |s| > 0 && Scan(s)[0].Hole?
    ensures BraceFree(Scan(s)[0].raw)
  {
    PlainIsPlain(s[2..]);
    assert Scan(s)[0].raw == s[2..HoleLength(s) - 2] == s[2..][..Plain(s[2..])];
  }

  /** And nothing else is: what is found holds no brace, so by `ScanSpells` it is a placeholder of the text. */
  lemma {:induction false} HolesAreBraceFree(s: string, i: nat)
    requires i < |Scan(s)| && Scan(s)[i].Hole?
    ensures BraceFree(Scan(s)[i].raw)
  {
    var p, n := FirstPiece(s);
    if i > 0 {
      HolesAreBraceFree(s[n..], i - 1);
    } else {
      FirstHole(s);
    }
  }

  // ------------------------------------------------------------ names and values

  function TrimSpace(s: string): string {
    if |s| == 0 then s
    else if Space(s[0]) then TrimSpace(s[1..])
    else if Space(s[|s| - 1]) then TrimSpace(s[..|s| - 1])
    else s
  }

  /** Trimming takes white space off both ends, all of it and nothing else. */
  lemma {:induction false} TrimMeans(s: string) returns (i: nat, j: nat)
    ensures i <= j <= |s| && TrimSpace(s) == s[i..j]
    ensures forall k :: 0 <= k < i || j <= k < |s| ==> Space(s[k])
    ensures i < j ==> !Space(s[i]) && !Space(s[j - 1])
  {
    if |s| > 0 && Space(s[0]) {
      i, j := TrimMeans(s[1..]);
      assert s[1..][i..j] == s[i + 1..j + 1];
      i, j := i + 1, j + 1;
      assert forall k :: 0 < k < |s| ==> s[k] == s[1..][k - 1];
    } else if |s| > 0 && Space(s[|s| - 1]) {
      i, j := TrimMeans(s[..|s| - 1]);
      assert s[..|s| - 1][i..j] == s[i..j];
    } else {
      i, j := 0, |s|;
      assert s[0..|s|] == s && TrimSpace(s) == s;
    }
  }

  function Specimen(name: string): Option<string> {
    if name == "source.ip" then Some("192.0.2.1")
    else if name == "destination.ip" then Some("192.0.2.2")
    else if name == "source.port" || name == "destination.port" then Some("65535")
    else if name == "protocol" then Some("tcp")
    else None
  }

  datatype Flow = Flow(sourceIP: Option<string>, destinationIP: Option<string>,
                       sourcePort: Option<int>, destinationPort: Option<int>, protocol: string)

  predicate AddressText(s: string) { |s| > 0 && forall i :: 0 <= i < |s| ==> s[i] in "0123456789abcdef.:" }

  /** What parsing an address can yield. */
  predicate WellFormed(f: Flow) {
    && (f.sourceIP.Some? ==> AddressText(f.sourceIP.value))
    && (f.destinationIP.Some? ==> AddressText(f.destinationIP.value))
  }

  datatype RenderError =
    UnknownName | NoFlow | NotAnAddress | NoPort | NotAPort | NotAProtocol | Unterminated | BadSyntax

  function PortValue(port: Option<int>): Result<string, RenderError> {
    match port
    case None => Err(NoPort)
    case Some(n) => if n < 0 || n > 65535 then Err(NotAPort) else Ok(Decimal(n))
  }

  function AddressValue(ip: Option<string>): Result<string, RenderError> {
    if ip.Some? then Ok(ip.value) else Err(NotAnAddress)
  }

  const PROTOCOLS: seq<string> := ["tcp", "udp", "icmp", "icmp6", "sctp"]

  function Resolve(name: string, flow: Option<Flow>): (r: Result<string, RenderError>) {
    if Specimen(name).None? then Err(UnknownName)
    else if flow.None? then Err(NoFlow)
    else if name == "source.ip" then AddressValue(flow.value.sourceIP)
    else if name == "destination.ip" then AddressValue(flow.value.destinationIP)
    else if name == "source.port" then PortValue(flow.value.sourcePort)
    else if name == "destination.port" then PortValue(flow.value.destinationPort)
    else if flow.value.protocol in PROTOCOLS then Ok(flow.value.protocol) else Err(NotAProtocol)
  }

  /** What a placeholder of this name may stand for: an address or a port of the flow as its name says, a port
      as the decimal text that reads back as it, or the flow's protocol if a filter can name it. */
  predicate StandsFor(name: string, v: string, f: Flow) {
    || (name == "source.ip" && f.sourceIP == Some(v))
    || (name == "destination.ip" && f.destinationIP == Some(v))
    || (name == "source.port" && f.sourcePort.Some? && PortText(v, f.sourcePort.value))
    || (name == "destination.port" && f.destinationPort.Some? && PortText(v, f.destinationPort.value))
    || (name == "protocol" && v == f.protocol && v in ["tcp", "udp", "icmp", "icmp6", "sctp"])
  }

  predicate PortText(v: string, port: int) { 0 <= port <= 65535 && Numeral(v, port) }

  lemma PortMeans(port: Option<int>, v: string)
    ensures PortValue(port) == Ok(v) <==> port.Some? && PortText(v, port.value)
  {
    if port.Some? && 0 <= port.value {
      DecimalIsNumeral(port.value);
      if Numeral(v, port.value) { NumeralIsDecimal(v, port.value); }
    }
  }

  /** A name is resolved to v exactly when it stands for v. */
  lemma ResolveMeans(name: string, flow: Option<Flow>, v: string)
    ensures Resolve(name, flow) == Ok(v) <==> flow.Some? && StandsFor(name, v, flow.value)
  {
    if flow.Some? {
      PortMeans(flow.value.sourcePort, v);
      PortMeans(flow.value.destinationPort, v);
    }
  }

  // ------------------------------------------------------------ whole-filter checks

  const MAX_FILTER_BYTES: nat := 1024

  function Utf8(c: char): nat {
    if c < 0x80 as char then 1 else if c < 0x800 as char then 2 else if c < 0x1_0000 as char then 3 else 4
  }

  function Bytes(s: string): nat { if |s| == 0 then 0 else Utf8(s[0]) + Bytes(s[1..]) }

  ghost function From(s: string, c: int): set<nat> { set i: nat | i < |s| && s[i] as int >= c }

  lemma {:induction false} FromFront(s: string, c: int)
    requires |s| > 0
    ensures |From(s, c)| == |From(s[..|s| - 1], c)| + if s[|s| - 1] as int >= c then 1 else 0
  {
    var n := |s| - 1;
    assert From(s, c) == From(s[..n], c) + if s[n] as int >= c then {n} else {};
  }

  lemma {:induction false} BytesFront(s: string)
    requires |s| > 0
    ensures Bytes(s) == Bytes(s[..|s| - 1]) + Utf8(s[|s| - 1])
  {
    if |s| > 1 {
      assert s[..|s| - 1][1..] == s[1..][..|s| - 2] && s[..|s| - 1][0] == s[0];
      BytesFront(s[1..]);
    }
  }

  /** A character takes one byte, one more from U+0080 on, from U+0800 on and from U+10000 on. */
  lemma {:induction false} BytesMeans(s: string)
    ensures Bytes(s) == |s| + |From(s, 0x80)| + |From(s, 0x800)| + |From(s, 0x1_0000)|
  {
    if |s| > 0 {
      BytesFront(s);
      BytesMeans(s[..|s| - 1]);
      FromFront(s, 0x80);
      FromFront(s, 0x800);
      FromFront(s, 0x1_0000);
    }
  }

  predicate Printable(s: string) { forall i :: 0 <= i < |s| ==> ' ' <= s[i] <= '~' }

  predicate ValidSyntax(s: string) { Bytes(s) <= MAX_FILTER_BYTES && Printable(s) }

  predicate Double(s: string, c: char) { exists i :: 0 <= i < |s| - 1 && s[i] == c && s[i + 1] == c }

  predicate Doubled(s: string) { Double(s, '{') || Double(s, '}') }

  // ------------------------------------------------------------ rendering

  /** The pieces with their values in place, or the first value that could not be had. */
  function Fill(ps: seq<Piece>, flow: Option<Flow>): Result<string, RenderError> {
    if |ps| == 0 then Ok([])
    else
      var head := if ps[0].Text? then Ok([ps[0].c]) else Resolve(TrimSpace(ps[0].raw), flow);
      if head.Err? then Err(head.error)
      else
        match Fill(ps[1..], flow)
        case Err(e) => Err(e)
        case Ok(tail) => Ok(head.value + tail)
  }

  function RenderFilter(template: string, flow: Option<Flow>): (r: Result<string, RenderError>)
    ensures r.Ok? ==> ValidSyntax(r.value) && !Doubled(r.value)
  {
    match Fill(Scan(template), flow)
    case Err(e) => Err(e)
    case Ok(s) => if Doubled(s) then Err(Unterminated) else if !ValidSyntax(s) then Err(BadSyntax) else Ok(s)
  }

  // ------------------------------------------------------------ checking a template

  datatype TemplateError = TooLong | UnknownPlaceholder | UnterminatedPlaceholder | InvalidSyntax

  /** Specimens for the placeholders that are known; the others stay. */
  function Residual(ps: seq<Piece>): string {
    if |ps| == 0 then []
    else
      var known := if ps[0].Hole? then Specimen(TrimSpace(ps[0].raw)) else None;
      (if known.Some? then known.value else SpellPiece(ps[0])) + Residual(ps[1..])
  }

  predicate HasHole(s: string) { exists i :: 0 <= i < |s| && HoleLength(s[i..]) > 0 }

  function ValidateFilterTemplate(template: string): Option<TemplateError> {
    var residual := Residual(Scan(template));
    if Bytes(template) > MAX_FILTER_BYTES then Some(TooLong)
    else if HasHole(residual) then Some(UnknownPlaceholder)
    else if Doubled(residual) then Some(UnterminatedPlaceholder)
    else if !ValidSyntax(residual) then Some(InvalidSyntax)
    else None
  }

  // ------------------------------------------------------------ values are harmless

  /** A value cannot join the text on either side of it, nor add a brace or an unprintable character. */
  predicate Harmless(s: string) { |s| > 0 && Printable(s) && forall i :: 0 <= i < |s| ==> !Brace(s[i]) }

  lemma {:induction false} DecimalHarmless(n: nat)
    ensures Harmless(Decimal(n))
  {
    if n >= 10 { DecimalHarmless(n / 10); }
  }

  lemma SpecimenHarmless(name: string)
    requires Specimen(name).Some?
    ensures Harmless(Specimen(name).value)
  {
  }

  lemma AddressHarmless(s: string)
    requires AddressText(s)
    ensures Harmless(s)
  {
  }

  lemma ProtocolHarmless(s: string)
    requires s in PROTOCOLS
    ensures Harmless(s)
  {
  }

  lemma ValueHarmless(name: string, flow: Option<Flow>)
    requires Resolve(name, flow).Ok? && (flow.Some? ==> WellFormed(flow.value))
    ensures Harmless(Resolve(name, flow).value)
  {
    var f := flow.value;
    if name == "source.ip" {
      AddressHarmless(f.sourceIP.value);
    } else if name == "destination.ip" {
      AddressHarmless(f.destinationIP.value);
    } else if name == "source.port" {
      DecimalHarmless(f.sourcePort.value);
    } else if name == "destination.port" {
      DecimalHarmless(f.destinationPort.value);
    } else {
      ProtocolHarmless(f.protocol);
    }
  }

  // ------------------------------------------------------------ two ways of filling

  /** Texts in place, one harmless value for every placeholder. */
  predicate FilledWith(ps: seq<Piece>, vs: seq<string>, s: string) {
    if |ps| == 0 then s == [] && vs == []
    else
      && |vs| == |ps|
      && (if ps[0].Text? then vs[0] == [ps[0].c] else Harmless(vs[0]))
      && |vs[0]| <= |s| && s[..|vs[0]|] == vs[0] && FilledWith(ps[1..], vs[1..], s[|vs[0]|..])
  }

  predicate PairAt(ps: seq<Piece>, c: char, i: nat) { i + 1 < |ps| && ps[i] == Text(c) && ps[i + 1] == Text(c) }

  ghost predicate Pair(ps: seq<Piece>, c: char) { exists i: nat :: PairAt(ps, c, i) }

  predicate TextPrintable(ps: seq<Piece>) { forall i :: 0 <= i < |ps| && ps[i].Text? ==> ' ' <= ps[i].c <= '~' }

  /** Double braces and unprintable characters come from the text alone, so what holds with one set of
      harmless values holds with any other. */
  lemma {:induction false} ShapeOfFilled(ps: seq<Piece>, vs: seq<string>, s: string, c: char)
    requires FilledWith(ps, vs, s) && Brace(c)
    ensures Double(s, c) <==> Pair(ps, c)
    ensures Printable(s) <==> TextPrintable(ps)
    ensures |s| > 0 && s[0] == c <==> |ps| > 0 && ps[0] == Text(c)
  {
    if |ps| > 0 {
      var a, b := vs[0], s[|vs[0]|..];
      ShapeOfFilled(ps[1..], vs[1..], b, c);
      assert s == a + b;
      DoubleSplits(a, b, c);
      PairSplits(ps, c);
      PrintableSplits(a, b);
      TextSplits(ps);
    }
  }

  lemma DoubleSplits(a: string, b: string, c: char)
    requires |a| > 0
    ensures Double(a + b, c) <==> Double(a, c) || Double(b, c) || (|b| > 0 && a[|a| - 1] == c && b[0] == c)
  {
    var s := a + b;
    if Double(a, c) {
      var i :| 0 <= i < |a| - 1 && a[i] == c && a[i + 1] == c;
      assert s[i] == c && s[i + 1] == c;
    }
    if Double(b, c) {
      var i :| 0 <= i < |b| - 1 && b[i] == c && b[i + 1] == c;
      assert s[|a| + i] == c && s[|a| + i + 1] == c;
    }
    if |b| > 0 && a[|a| - 1] == c && b[0] == c {
      assert s[|a| - 1] == c && s[|a| - 1 + 1] == c;
    }
    if Double(s, c) {
      var i :| 0 <= i < |s| - 1 && s[i] == c && s[i + 1] == c;
      if i + 1 < |a| {
        assert a[i] == c && a[i + 1] == c;
      } else if i >= |a| {
        assert b[i - |a|] == c && b[i - |a| + 1] == c;
      }
    }
  }

  lemma PairSplits(ps: seq<Piece>, c: char)
    requires |ps| > 0
    ensures Pair(ps, c) <==> Pair(ps[1..], c) || PairAt(ps, c, 0)
  {
    if Pair(ps, c) {
      var i: nat :| PairAt(ps, c, i);
      if i > 0 { assert PairAt(ps[1..], c, i - 1); }
    }
    if Pair(ps[1..], c) {
      var i: nat :| PairAt(ps[1..], c, i);
      assert PairAt(ps, c, i + 1);
    }
  }

  lemma PrintableSplits(a: string, b: string)
    ensures Printable(a + b) <==> Printable(a) && Printable(b)
  {
    var s := a + b;
    if Printable(s) {
      assert forall i :: 0 <= i < |a| ==> a[i] == s[i];
      assert forall i :: 0 <= i < |b| ==> b[i] == s[|a| + i];
    }
  }

  lemma TextSplits(ps: seq<Piece>)
    requires |ps| > 0
    ensures TextPrintable(ps) <==> TextPrintable(ps[1..]) && (ps[0].Text? ==> ' ' <= ps[0].c <= '~')
  {
    assert forall i :: 0 < i < |ps| ==> ps[i] == ps[1..][i - 1];
  }

  /** Every placeholder has a value its trimmed name stands for. */
  predicate Meant(ps: seq<Piece>, vs: seq<string>, flow: Option<Flow>) {
    && |vs| == |ps|
    && forall i :: 0 <= i < |ps| && ps[i].Hole? ==> flow.Some? && StandsFor(TrimSpace(ps[i].raw), vs[i], flow.value)
  }

  /** Rendering keeps every character outside the placeholders, in place, and puts what its name stands for
      in the place of each. */
  lemma {:induction false} FillKeepsText(ps: seq<Piece>, flow: Option<Flow>) returns (vs: seq<string>)
    requires Fill(ps, flow).Ok? && (flow.Some? ==> WellFormed(flow.value))
    ensures FilledWith(ps, vs, Fill(ps, flow).value) && Meant(ps, vs, flow)
  {
    vs := [];
    if |ps| > 0 {
      var tail := FillKeepsText(ps[1..], flow);
      var head := if ps[0].Text? then [ps[0].c] else Resolve(TrimSpace(ps[0].raw), flow).value;
      if ps[0].Hole? {
        ValueHarmless(TrimSpace(ps[0].raw), flow);
        ResolveMeans(TrimSpace(ps[0].raw), flow, head);
      }
      vs := [head] + tail;
      assert vs[1..] == tail && (head + Fill(ps[1..], flow).value)[|head|..] == Fill(ps[1..], flow).value;
    }
  }

  lemma {:induction false} MeantFills(ps: seq<Piece>, vs: seq<string>, flow: Option<Flow>, s: string)
    requires FilledWith(ps, vs, s) && Meant(ps, vs, flow)
    ensures Fill(ps, flow) == Ok(s)
  {
    if |ps| > 0 {
      if ps[0].Hole? { ResolveMeans(TrimSpace(ps[0].raw), flow, vs[0]); }
      assert forall i :: 0 < i < |ps| ==> ps[i] == ps[1..][i - 1] && vs[i] == vs[1..][i - 1];
      MeantFills(ps[1..], vs[1..], flow, s[|vs[0]|..]);
      assert s == vs[0] + s[|vs[0]|..];
    }
  }

  /** A template renders to s exactly when s is its text with each placeholder replaced by what its name stands
      for, and s is printable, fits, and holds no double brace. */
  lemma {:induction false} RendersExactlyWhen(template: string, flow: Option<Flow>, s: string)
    requires flow.Some? ==> WellFormed(flow.value)
    ensures RenderFilter(template, flow) == Ok(s) <==>
      && (exists vs :: FilledWith(Scan(template), vs, s) && Meant(Scan(template), vs, flow))
      && Bytes(s) <= 1024 && Printable(s) && !Double(s, '{') && !Double(s, '}')
  {
    var ps := Scan(template);
    if RenderFilter(template, flow) == Ok(s) {
      var vs := FillKeepsText(ps, flow);
    } else if vs :| FilledWith(ps, vs, s) && Meant(ps, vs, flow) {
      MeantFills(ps, vs, flow, s);
    }
  }

  predicate AllKnown(ps: seq<Piece>) {
    forall i :: 0 <= i < |ps| && ps[i].Hole? ==> Known(TrimSpace(ps[i].raw))
  }

  /** The documented names. */
  predicate Known(name: string) {
    name in {"source.ip", "destination.ip", "source.port", "destination.port", "protocol"}
  }

  /** Every placeholder has its name's specimen. */
  predicate Sampled(ps: seq<Piece>, vs: seq<string>) {
    |vs| == |ps| && forall i :: 0 <= i < |ps| && ps[i].Hole? ==> Sample(TrimSpace(ps[i].raw), vs[i])
  }

  predicate Sample(name: string, v: string) {
    || (name == "source.ip" && v == "192.0.2.1")
    || (name == "destination.ip" && v == "192.0.2.2")
    || (name in {"source.port", "destination.port"} && v == "65535")
    || (name == "protocol" && v == "tcp")
  }

  lemma {:induction false} SampledIsResidual(ps: seq<Piece>, vs: seq<string>, s: string)
    requires FilledWith(ps, vs, s) && Sampled(ps, vs)
    ensures s == Residual(ps)
  {
    if |ps| > 0 {
      assert forall i :: 0 < i < |ps| ==> ps[i] == ps[1..][i - 1] && vs[i] == vs[1..][i - 1];
      SampledIsResidual(ps[1..], vs[1..], s[|vs[0]|..]);
      assert s == vs[0] + s[|vs[0]|..];
    }
  }

  lemma {:induction false} ResidualFills(ps: seq<Piece>) returns (vs: seq<string>)
    requires AllKnown(ps)
    ensures FilledWith(ps, vs, Residual(ps)) && Sampled(ps, vs)
  {
    vs := [];
    if |ps| > 0 {
      assert forall i :: 0 < i < |ps| ==> ps[i] == ps[1..][i - 1];
      var tail := ResidualFills(ps[1..]);
      var head := if ps[0].Text? then [ps[0].c] else Specimen(TrimSpace(ps[0].raw)).value;
      if ps[0].Hole? { SpecimenHarmless(TrimSpace(ps[0].raw)); }
      vs := [head] + tail;
      assert vs[1..] == tail && (head + Residual(ps[1..]))[|head|..] == Residual(ps[1..]);
    }
  }

  /** An unknown placeholder stays, and its braces with it. */
  lemma {:induction false} UnknownStays(ps: seq<Piece>)
    requires !AllKnown(ps)
    ensures Double(Residual(ps), '{')
  {
    var rest := Residual(ps[1..]);
    var known := if ps[0].Hole? then Specimen(TrimSpace(ps[0].raw)) else None;
    var head := if known.Some? then known.value else SpellPiece(ps[0]);
    if ps[0].Hole? && known.None? {
      assert head[0] == '{' && head[0 + 1] == '{';
    } else {
      assert forall i :: 0 < i < |ps| ==> ps[i] == ps[1..][i - 1];
      UnknownStays(ps[1..]);
      if known.Some? { SpecimenHarmless(TrimSpace(ps[0].raw)); }
    }
    DoubleSplits(head, rest, '{');
  }

  // ------------------------------------------------------------ results

  lemma HoleIsDouble(s: string)
    requires HasHole(s)
    ensures Double(s, '{')
  {
    var i :| 0 <= i < |s| && HoleLength(s[i..]) > 0;
    assert s[i] == s[i..][0] == '{' && s[i + 1] == s[i..][1] == '{';
  }

  lemma {:induction false} KnownShape(template: string)
    requires AllKnown(Scan(template))
    ensures var ps := Scan(template); var r := Residual(ps);
            && (Printable(r) <==> TextPrintable(ps))
            && (Double(r, '{') <==> Pair(ps, '{')) && (Double(r, '}') <==> Pair(ps, '}'))
  {
    var ps := Scan(template);
    var vs := ResidualFills(ps);
    ShapeOfFilled(ps, vs, Residual(ps), '{');
    ShapeOfFilled(ps, vs, Residual(ps), '}');
  }

  lemma {:induction false} AcceptedByResidual(template: string)
    ensures var ps := Scan(template);
      ValidateFilterTemplate(template).None? <==>
      && Bytes(template) <= 1024 && AllKnown(ps) && TextPrintable(ps) && !Pair(ps, '{') && !Pair(ps, '}')
      && Bytes(Residual(ps)) <= 1024
  {
    var ps := Scan(template);
    if AllKnown(ps) {
      KnownShape(template);
      if HasHole(Residual(ps)) { HoleIsDouble(Residual(ps)); }
    } else {
      UnknownStays(ps);
    }
  }

  /** With specimens in the places of its placeholders the text fits. */
  ghost predicate SampleFits(ps: seq<Piece>) {
    exists vs, s :: FilledWith(ps, vs, s) && Sampled(ps, vs) && Bytes(s) <= 1024
  }

  lemma {:induction false} SampleFitsMeans(ps: seq<Piece>)
    requires AllKnown(ps)
    ensures SampleFits(ps) <==> Bytes(Residual(ps)) <= 1024
  {
    if SampleFits(ps) {
      var vs, s :| FilledWith(ps, vs, s) && Sampled(ps, vs) && Bytes(s) <= 1024;
      SampledIsResidual(ps, vs, s);
    } else {
      var vs := ResidualFills(ps);
    }
  }

  /** A template is accepted exactly when it fits, names only documented placeholders, and has text around them
      that is printable and holds no double brace, and the text with specimens in their places fits. */
  lemma {:induction false} AcceptedExactlyWhen(template: string)
    ensures var ps := Scan(template);
      ValidateFilterTemplate(template).None? <==>
      && Bytes(template) <= 1024 && AllKnown(ps) && TextPrintable(ps) && !Pair(ps, '{') && !Pair(ps, '}')
      && SampleFits(ps)
  {
    AcceptedByResidual(template);
    if AllKnown(Scan(template)) { SampleFitsMeans(Scan(template)); }
  }

  lemma {:induction false} AcceptedShape(template: string)
    requires ValidateFilterTemplate(template).None?
    ensures var ps := Scan(template); AllKnown(ps) && TextPrintable(ps) && !Pair(ps, '{') && !Pair(ps, '}')
  {
    AcceptedByResidual(template);
  }

  /** If a template was accepted and the flow supplies every placeholder in it, rendering keeps its text
      and fails for length alone. */
  lemma {:induction false} AcceptedRenders(template: string, flow: Option<Flow>)
    requires flow.Some? ==> WellFormed(flow.value)
    ensures ValidateFilterTemplate(template).None? && Fill(Scan(template), flow).Ok? ==>
      var s := Fill(Scan(template), flow).value;
      && (exists vs :: FilledWith(Scan(template), vs, s))
      && RenderFilter(template, flow) == if Bytes(s) <= MAX_FILTER_BYTES then Ok(s) else Err(BadSyntax)
  {
    if ValidateFilterTemplate(template).None? && Fill(Scan(template), flow).Ok? {
      AcceptedShape(template);
      var vs := FillKeepsText(Scan(template), flow);
      ShapeOfFilled(Scan(template), vs, Fill(Scan(template), flow).value, '{');
      ShapeOfFilled(Scan(template), vs, Fill(Scan(template), flow).value, '}');
    }
  }

  /** A flow with two addresses, two ports in range and a known protocol supplies every placeholder an
      accepted template can name. */
  predicate Supplies(f: Flow) {
    && f.sourceIP.Some? && f.destinationIP.Some? && f.protocol in PROTOCOLS
    && f.sourcePort.Some? && 0 <= f.sourcePort.value <= 65535
    && f.destinationPort.Some? && 0 <= f.destinationPort.value <= 65535
  }

  lemma {:induction false} SuppliesFills(ps: seq<Piece>, f: Flow)
    requires AllKnown(ps) && Supplies(f)
    ensures Fill(ps, Some(f)).Ok?
  {
    if |ps| > 0 {
      assert forall i :: 0 < i < |ps| ==> ps[i] == ps[1..][i - 1];
      SuppliesFills(ps[1..], f);
    }
  }

  lemma {:induction false} AcceptedRendersForSuppliers(template: string, f: Flow)
    requires WellFormed(f) && Supplies(f)
    ensures ValidateFilterTemplate(template).None? ==>
      && Fill(Scan(template), Some(f)).Ok?
      && (RenderFilter(template, Some(f)).Ok? <==> Bytes(Fill(Scan(template), Some(f)).value) <= MAX_FILTER_BYTES)
  {
    if ValidateFilterTemplate(template).None? {
      AcceptedShape(template);
      SuppliesFills(Scan(template), f);
      AcceptedRenders(template, Some(f));
    }
  }
}
