/** Why a template is refused, when it is written and when it is rendered. */
module TemplateErrors {
  import opened Options
  import opened Template

  /** What is wrong with a placeholder of this name for this flow. */
  predicate Lacks(name: string, flow: Option<Flow>, e: RenderError) {
    match e
    case UnknownName => !Known(name)
    case NoFlow => Known(name) && flow.None?
    case NotAnAddress =>
      && flow.Some?
      && ((name == "source.ip" && flow.value.sourceIP.None?)
          || (name == "destination.ip" && flow.value.destinationIP.None?))
    case NoPort =>
      && flow.Some?
      && ((name == "source.port" && flow.value.sourcePort.None?)
          || (name == "destination.port" && flow.value.destinationPort.None?))
    case NotAPort =>
      && flow.Some?
      && ((name == "source.port" && OutOfRange(flow.value.sourcePort))
          || (name == "destination.port" && OutOfRange(flow.value.destinationPort)))
    case NotAProtocol =>
      && flow.Some? && name == "protocol" && flow.value.protocol !in {"tcp", "udp", "icmp", "icmp6", "sctp"}
    case _ => false
  }

  predicate OutOfRange(port: Option<int>) { port.Some? && (port.value < 0 || port.value > 65535) }

  lemma ResolveErrs(name: string, flow: Option<Flow>, e: RenderError)
    ensures Resolve(name, flow) == Err(e) <==> Lacks(name, flow, e)
  {
    ProtocolsListed(if flow.Some? then flow.value.protocol else "");
  }

  lemma ProtocolsListed(p: string)
    ensures p in PROTOCOLS <==> p in {"tcp", "udp", "icmp", "icmp6", "sctp"}
  {
    assert PROTOCOLS[0] == "tcp" && PROTOCOLS[1] == "udp" && PROTOCOLS[2] == "icmp";
    assert PROTOCOLS[3] == "icmp6" && PROTOCOLS[4] == "sctp" && |PROTOCOLS| == 5;
  }

  /** The i-th placeholder is the first without a value, and e says why. */
  predicate Blames(ps: seq<Piece>, flow: Option<Flow>, i: nat, e: RenderError) {
    && i < |ps| && ps[i].Hole? && Lacks(TrimSpace(ps[i].raw), flow, e)
    && forall k :: 0 <= k < i && ps[k].Hole? ==> Resolve(TrimSpace(ps[k].raw), flow).Ok?
  }

  lemma {:induction false} FillFailsAtFirst(ps: seq<Piece>, flow: Option<Flow>) returns (i: nat)
    requires Fill(ps, flow).Err?
    ensures Blames(ps, flow, i, Fill(ps, flow).error)
  {
    var e := Fill(ps, flow).error;
    if ps[0].Hole? && Resolve(TrimSpace(ps[0].raw), flow).Err? {
      i := 0;
      ResolveErrs(TrimSpace(ps[0].raw), flow, e);
    } else {
      i := FillFailsAtFirst(ps[1..], flow);
      assert forall k :: 0 < k < |ps| ==> ps[k] == ps[1..][k - 1];
      i := i + 1;
    }
  }

  /** Rendering fails for the first placeholder without a value, or for a brace left over, or for its length or an
      unprintable character, in this order. */
  lemma {:induction false} RenderErrs(template: string, flow: Option<Flow>)
    requires RenderFilter(template, flow).Err?
    ensures var e := RenderFilter(template, flow).error; var ps := Scan(template);
      match Fill(ps, flow)
      case Err(f) => e == f && exists i: nat :: Blames(ps, flow, i, e)
      case Ok(s) =>
        if Double(s, '{') || Double(s, '}') then e.Unterminated? else e.BadSyntax? && (Bytes(s) > 1024 || !Printable(s))
  {
    if Fill(Scan(template), flow).Err? { var i := FillFailsAtFirst(Scan(template), flow); }
  }

  // ------------------------------------------------------------ when a policy is written

  /** The text holds a placeholder. */
  ghost predicate Holds(s: string) { exists a, raw, b :: BraceFree(raw) && s == a + (Placeholder(raw) + b) }

  lemma {:induction false} HasHoleMeans(s: string)
    ensures HasHole(s) <==> Holds(s)
  {
    if HasHole(s) {
      var i :| 0 <= i < |s| && HoleLength(s[i..]) > 0;
      SplitAt(s, i);
    }
    if a, raw, b :| BraceFree(raw) && s == a + (Placeholder(raw) + b) {
      PlaceholderInFront(raw, b);
      assert s[|a|..] == Placeholder(raw) + b;
    }
  }

  lemma {:induction false} SplitAt(s: string, i: nat)
    requires i < |s| && HoleLength(s[i..]) > 0
    ensures Holds(s)
  {
    var t := s[i..];
    var n := HoleLength(t);
    var raw := t[2..n - 2];
    PlainIsPlain(t[2..]);
    assert raw == t[2..][..Plain(t[2..])];
    assert t == Placeholder(raw) + t[n..] by {
      assert t[..2] == "{{" && t[n - 2..n] == "}}" && t == t[..2] + raw + t[n - 2..n] + t[n..];
    }
    var a, b := s[..i], t[n..];
    assert s == a + t == a + (Placeholder(raw) + b);
  }

  /** A template is refused as too long, for a placeholder that is not documented, for a brace left over, or for
      what the text with specimens in it holds, in this order. */
  lemma {:induction false} ValidateErrs(template: string)
    ensures var residual := Residual(Scan(template)); var odd := Holds(residual);
      match ValidateFilterTemplate(template)
      case Some(TooLong) => Bytes(template) > 1024
      case Some(UnknownPlaceholder) => Bytes(template) <= 1024 && odd
      case Some(UnterminatedPlaceholder) =>
        Bytes(template) <= 1024 && !odd && (Double(residual, '{') || Double(residual, '}'))
      case Some(InvalidSyntax) =>
        && Bytes(template) <= 1024 && !odd && !Double(residual, '{') && !Double(residual, '}')
        && (Bytes(residual) > 1024 || !Printable(residual))
      case None =>
        && Bytes(template) <= 1024 && !odd && !Double(residual, '{') && !Double(residual, '}')
        && Bytes(residual) <= 1024 && Printable(residual)
  {
    HasHoleMeans(Residual(Scan(template)));
  }
}
