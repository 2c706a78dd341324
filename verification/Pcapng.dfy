/**
 The capture-file walker: block framing, packet count and the bytes that are hashed.

 The stream grammar is the one of draft-ietf-opsawg-pcapng, sections 3.1 and 4.1: a
 section header in its own byte order, then blocks framed in that order, any number of
 sections.  `Walk` is the recursive reading of the walker, `CountAndHash` is its loop,
 and `Print` is an independent definition of the streams it must accept.
 */
module Pcapng {
  import opened Options

  type Byte = b: int | 0 <= b < 256

  datatype Order = Little | Big

  datatype FrameError =
    | TruncatedHeader
    | TruncatedSectionHeader
    | BadMagic
    | BadSectionLength
    | NoSectionHeader
    | BadBlockLength
    | TruncatedBlock
    | TruncatedTrailer
    | TrailerMismatch
    | EmptyStream

  const SECTION_HEADER := 0x0A0D0D0A
  const PACKET_OBSOLETE := 0x00000002
  const SIMPLE_PACKET := 0x00000003
  const ENHANCED_PACKET := 0x00000006
  const BYTE_ORDER_MAGIC := 0x1A2B3C4D
  const MIN_BLOCK_LENGTH := 12
  const U32_LIMIT := 0x1_0000_0000

  /** The number a run of bytes spells, least significant byte first. */
  function LittleEndian(s: seq<Byte>): (n: nat) {
    if |s| == 0 then 0 else s[0] + 0x100 * LittleEndian(s[1..])
  }

  function BigEndian(s: seq<Byte>): (n: nat) {
    if |s| == 0 then 0 else 0x100 * BigEndian(s[..|s| - 1]) + s[|s| - 1]
  }

  function U32(o: Order, s: seq<Byte>): (n: nat)
    requires |s| == 4
    ensures n < U32_LIMIT
  {
    Spelled(s[0], s[1], s[2], s[3]);
    Spelled(s[3], s[2], s[1], s[0]);
    assert s == [s[0], s[1], s[2], s[3]];
    match o
    case Little => LittleEndian(s)
    case Big => BigEndian(s)
  }

  /** The four bytes that spell n. */
  ghost function Put32(o: Order, n: nat): (s: seq<Byte>)
    requires n < U32_LIMIT
    ensures |s| == 4 && U32(o, s) == n
  {
    Spellable(o, n);
    var s: seq<Byte> :| |s| == 4 && U32(o, s) == n;
    s
  }

  lemma Spellable(o: Order, n: nat)
    requires n < U32_LIMIT
    ensures exists s: seq<Byte> :: |s| == 4 && U32(o, s) == n
  {
    var q1 := n / 0x100;
    var q2 := q1 / 0x100;
    var q3 := q2 / 0x100;
    var b0, b1, b2, b3: Byte := n - 0x100 * q1, q1 - 0x100 * q2, q2 - 0x100 * q3, q3;
    Spelled(b0, b1, b2, b3);
    var s := if o.Little? then [b0, b1, b2, b3] else [b3, b2, b1, b0];
    assert U32(o, s) == n;
  }

  lemma {:induction false} Spelled(b0: Byte, b1: Byte, b2: Byte, b3: Byte)
    ensures LittleEndian([b0, b1, b2, b3]) == BigEndian([b3, b2, b1, b0])
            == b0 + 0x100 * (b1 + 0x100 * (b2 + 0x100 * b3 as int))
  {
    assert [b0, b1, b2, b3][1..] == [b1, b2, b3] && [b1, b2, b3][1..] == [b2, b3] && [b2, b3][1..] == [b3];
    assert LittleEndian([b3]) == b3 && LittleEndian([b2, b3]) == b2 + 0x100 * b3 as int;
    assert [b3, b2, b1, b0][..3] == [b3, b2, b1] && [b3, b2, b1][..2] == [b3, b2] && [b3, b2][..1] == [b3];
    assert [b3][..0] == [] && BigEndian([]) == 0;
    assert BigEndian([b3]) == b3 && BigEndian([b3, b2]) == b2 + 0x100 * b3 as int;
  }

  /** Four bytes are determined by the number they spell. */
  lemma U32Injective(o: Order, s: seq<Byte>, t: seq<Byte>)
    requires |s| == |t| == 4 && U32(o, s) == U32(o, t)
    ensures s == t
  {
    assert s == [s[0], s[1], s[2], s[3]] && t == [t[0], t[1], t[2], t[3]];
    if o.Little? {
      Spelled(s[0], s[1], s[2], s[3]);
      Spelled(t[0], t[1], t[2], t[3]);
      SameDigits(s[0], s[1], s[2], s[3], t[0], t[1], t[2], t[3]);
    } else {
      Spelled(s[3], s[2], s[1], s[0]);
      Spelled(t[3], t[2], t[1], t[0]);
      SameDigits(s[3], s[2], s[1], s[0], t[3], t[2], t[1], t[0]);
    }
  }

  lemma SameDigits(a0: Byte, a1: Byte, a2: Byte, a3: Byte, b0: Byte, b1: Byte, b2: Byte, b3: Byte)
    requires a0 + 0x100 * (a1 + 0x100 * (a2 + 0x100 * a3 as int))
             == b0 + 0x100 * (b1 + 0x100 * (b2 + 0x100 * b3 as int))
    ensures a0 == b0 && a1 == b1 && a2 == b2 && a3 == b3
  {
    LastDigit(a0, a1 + 0x100 * (a2 + 0x100 * a3 as int), b0, b1 + 0x100 * (b2 + 0x100 * b3 as int));
    LastDigit(a1, a2 + 0x100 * a3 as int, b1, b2 + 0x100 * b3 as int);
    LastDigit(a2, a3, b2, b3);
  }

  lemma LastDigit(x: Byte, q: int, y: Byte, r: int)
    requires x + 0x100 * q == y + 0x100 * r
    ensures x == y && q == r
  {
  }

  lemma HeaderSpelling(s: seq<Byte>)
    requires |s| == 4
    ensures U32(Little, s) == SECTION_HEADER <==> s == [0x0A, 0x0D, 0x0D, 0x0A]
  {
    assert s == [s[0], s[1], s[2], s[3]];
    Spelled(s[0], s[1], s[2], s[3]);
    if U32(Little, s) == SECTION_HEADER { SameDigits(s[0], s[1], s[2], s[3], 0x0A, 0x0D, 0x0D, 0x0A); }
  }

  // ---------------------------------------------------------------- the walker

  predicate IsPacket(typ: nat) {
    typ == ENHANCED_PACKET || typ == SIMPLE_PACKET || typ == PACKET_OBSOLETE
  }

  function MagicOrder(magic: seq<Byte>): (o: Option<Order>)
    requires |magic| == 4
  {
    if U32(Little, magic) == BYTE_ORDER_MAGIC then Some(Little)
    else if U32(Big, magic) == BYTE_ORDER_MAGIC then Some(Big)
    else None
  }

  /** What the first bytes of a block announce, before its length is looked at. */
  datatype Kind = Kind(order: Order, header: bool, packet: bool) {
    function MinLength(): (n: nat) { if header then MIN_BLOCK_LENGTH + 4 else MIN_BLOCK_LENGTH }
  }

  function Counted(packets: nat, rest: Result<nat, FrameError>): Result<nat, FrameError> {
    match rest
    case Err(e) => Err(e)
    case Ok(n) => Ok(packets + n)
  }

  /** Packets in the rest of a stream, given the byte order in force. */
  function Walk(s: seq<Byte>, order: Option<Order>): (r: Result<nat, FrameError>)
    decreases |s|, 2
  {
    if s == [] then (if order.None? then Err(EmptyStream) else Ok(0))
    else if |s| < 8 then Err(TruncatedHeader)
    else if U32(Little, s[..4]) == SECTION_HEADER then WalkHeader(s)
    else if order.None? then Err(NoSectionHeader)
    else WalkBody(s, Kind(order.value, false, IsPacket(U32(order.value, s[..4]))))
  }

  /** A section header: its byte-order magic decides how the section is read. */
  function WalkHeader(s: seq<Byte>): (r: Result<nat, FrameError>)
    requires |s| >= 8
    decreases |s|, 1
  {
    if |s| < 12 then Err(TruncatedSectionHeader)
    else
      match MagicOrder(s[8..12])
      case None => Err(BadMagic)
      case Some(o) => WalkBody(s, Kind(o, true, false))
  }

  /** Length, contents and trailer of the block at the front, then the rest. */
  function WalkBody(s: seq<Byte>, k: Kind): (r: Result<nat, FrameError>)
    requires |s| >= 8
    decreases |s|, 0
  {
    var total := U32(k.order, s[4..8]);
    if total < k.MinLength() || total % 4 != 0 then Err(if k.header then BadSectionLength else BadBlockLength)
    else if |s| < total - 4 then Err(if k.header then TruncatedSectionHeader else TruncatedBlock)
    else if |s| < total then Err(TruncatedTrailer)
    else if U32(k.order, s[total - 4..total]) != total then Err(TrailerMismatch)
    else Counted(if k.packet then 1 else 0, Walk(s[total..], Some(k.order)))
  }

  /** What the runner publishes about a file. */
  datatype Summary = Summary(packets: nat, size: nat, hashed: seq<Byte>)

  function Summarize(s: seq<Byte>): (r: Result<Summary, FrameError>) {
    match Walk(s, None)
    case Err(e) => Err(e)
    case Ok(n) => Ok(Summary(n, |s|, s))
  }

  /** Reads a block's type and, for a section header, its magic. */
  method ReadKind(stream: seq<Byte>, at: nat, order: Option<Order>) returns (r: Result<Kind, FrameError>)
    requires at < |stream|
    ensures r.Err? ==> Walk(stream[at..], order) == Err(r.error)
    ensures r.Ok? ==> at + 8 <= |stream| && Walk(stream[at..], order) == WalkBody(stream[at..], r.value)
    ensures r.Ok? ==> (r.value.header <==> stream[at..at + 4] == [0x0A, 0x0D, 0x0D, 0x0A])
    ensures r.Ok? && !r.value.header ==> Some(r.value.order) == order
    ensures r.Ok? ==>
      (r.value.packet <==> !r.value.header && U32(r.value.order, stream[at..at + 4]) in {0x2, 0x3, 0x6})
  {
    ghost var left := stream[at..];
    if |stream| - at < 8 { return Err(TruncatedHeader); }
    assert stream[at..at + 4] == left[..4];
    HeaderSpelling(stream[at..at + 4]);
    if U32(Little, stream[at..at + 4]) == SECTION_HEADER {
      assert Walk(left, order) == WalkHeader(left);
      if |stream| - at < 12 { return Err(TruncatedSectionHeader); }
      assert stream[at + 8..at + 12] == left[8..12];
      var magic := MagicOrder(stream[at + 8..at + 12]);
      if magic.None? { return Err(BadMagic); }
      return Ok(Kind(magic.value, true, false));
    }
    if order.None? { return Err(NoSectionHeader); }
    return Ok(Kind(order.value, false, IsPacket(U32(order.value, stream[at..at + 4]))));
  }

  /** Reads a block's length, skips its contents and checks its trailer. */
  method ReadBody(stream: seq<Byte>, at: nat, kind: Kind) returns (r: Result<nat, FrameError>)
    requires at + 8 <= |stream|
    ensures r.Err? ==> WalkBody(stream[at..], kind) == Err(r.error)
    ensures r.Ok? ==> 12 <= r.value && at + r.value <= |stream|
    ensures r.Ok? ==> WalkBody(stream[at..], kind) ==
                      Counted(if kind.packet then 1 else 0, Walk(stream[at + r.value..], Some(kind.order)))
  {
    ghost var left := stream[at..];
    assert stream[at + 4..at + 8] == left[4..8];
    var total := U32(kind.order, stream[at + 4..at + 8]);
    if total < kind.MinLength() || total % 4 != 0 {
      return Err(if kind.header then BadSectionLength else BadBlockLength);
    }
    if |stream| - at < total - 4 {
      return Err(if kind.header then TruncatedSectionHeader else TruncatedBlock);
    }
    if |stream| - at < total { return Err(TruncatedTrailer); }
    assert stream[at + total - 4..at + total] == left[total - 4..total];
    if U32(kind.order, stream[at + total - 4..at + total]) != total { return Err(TrailerMismatch); }
    assert left[total..] == stream[at + total..];
    return Ok(total);
  }

  lemma CountedTwice(m: nat, n: nat, rest: Result<nat, FrameError>)
    ensures Counted(m, Counted(n, rest)) == Counted(m + n, rest)
  {
  }

  /** Reads one block. */
  method ReadBlock(stream: seq<Byte>, at: nat, order: Option<Order>) returns (r: Result<(Kind, nat), FrameError>)
    requires at < |stream|
    ensures r.Err? ==> Walk(stream[at..], order) == Err(r.error)
    ensures r.Ok? ==> 12 <= r.value.1 && at + r.value.1 <= |stream|
    ensures r.Ok? ==> Walk(stream[at..], order) ==
                      Counted(if r.value.0.packet then 1 else 0, Walk(stream[at + r.value.1..], Some(r.value.0.order)))
  {
    var kind := ReadKind(stream, at, order);
    if kind.Err? { return Err(kind.error); }
    var total := ReadBody(stream, at, kind.value);
    if total.Err? { return Err(total.error); }
    return Ok((kind.value, total.value));
  }

  /** The loop: `hashed` is everything the tee has fed to the hash so far. */
  method CountAndHash(stream: seq<Byte>) returns (r: Result<Summary, FrameError>)
    ensures r == Summarize(stream)
  {
    var order: Option<Order> := None;
    var packets, size, hashed := 0, 0, [];
    while size < |stream|
      invariant size <= |stream| && hashed == stream[..size]
      invariant Walk(stream, None) == Counted(packets, Walk(stream[size..], order))
    {
      var block := ReadBlock(stream, size, order);
      if block.Err? { return Err(block.error); }
      var kind, total := block.value.0, block.value.1;
      CountedTwice(packets, if kind.packet then 1 else 0, Walk(stream[size + total..], Some(kind.order)));
      hashed := hashed + stream[size..size + total];
      order, size := Some(kind.order), size + total;
      if kind.packet { packets := packets + 1; }
    }
    assert stream[size..] == [] && stream[..size] == stream;
    if order.None? { return Err(EmptyStream); }
    return Ok(Summary(packets, size, hashed));
  }
}
