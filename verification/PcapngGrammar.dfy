/**
 Printed lists of sections: the walker reads each back, accepts nothing else that starts with a section
 header, and accepts a proper prefix only when it ends where a block ends.
 */
module PcapngGrammar {
  import opened Options
  import opened Pcapng

  datatype Block = Block(typ: nat, body: seq<Byte>)

  datatype Section = Section(order: Order, options: seq<Byte>, blocks: seq<Block>)

  predicate ValidBlock(b: Block) {
    b.typ < U32_LIMIT && b.typ != SECTION_HEADER && |b.body| % 4 == 0 && |b.body| + 12 < U32_LIMIT
  }

  predicate ValidSection(s: Section) {
    |s.options| % 4 == 0 && |s.options| + 16 < U32_LIMIT && forall b :: b in s.blocks ==> ValidBlock(b)
  }

  predicate ValidSections(ss: seq<Section>) {
    forall s :: s in ss ==> ValidSection(s)
  }

  ghost function PrintBlock(o: Order, b: Block): seq<Byte>
    requires ValidBlock(b)
  {
    Put32(o, b.typ) + Put32(o, |b.body| + 12) + b.body + Put32(o, |b.body| + 12)
  }

  ghost function PrintBlocks(o: Order, bs: seq<Block>): seq<Byte>
    requires forall b :: b in bs ==> ValidBlock(b)
  {
    if bs == [] then [] else PrintBlock(o, bs[0]) + PrintBlocks(o, bs[1..])
  }

  ghost function PrintHeader(o: Order, options: seq<Byte>): seq<Byte>
    requires |options| + 16 < U32_LIMIT
  {
    Put32(o, SECTION_HEADER) + Put32(o, |options| + 16) + Put32(o, BYTE_ORDER_MAGIC)
    + options + Put32(o, |options| + 16)
  }

  ghost function Print(ss: seq<Section>): seq<Byte>
    requires ValidSections(ss)
  {
    if ss == [] then []
    else
      assert ValidSection(ss[0]);
      PrintHeader(ss[0].order, ss[0].options) + (PrintBlocks(ss[0].order, ss[0].blocks) + Print(ss[1..]))
  }

  function BlockPackets(bs: seq<Block>): nat {
    if bs == [] then 0 else (if IsPacket(bs[0].typ) then 1 else 0) + BlockPackets(bs[1..])
  }

  function Packets(ss: seq<Section>): nat {
    if ss == [] then 0 else BlockPackets(ss[0].blocks) + Packets(ss[1..])
  }

  // ------------------------------------------------------- one block, both ways

  /** The section-header type reads the same in either byte order. */
  lemma HeaderPalindrome(o: Order, s: seq<Byte>)
    requires |s| == 4
    ensures U32(o, s) == SECTION_HEADER <==> U32(Little, s) == SECTION_HEADER
  {
    assert s == [s[0], s[1], s[2], s[3]];
    Spelled(s[0], s[1], s[2], s[3]);
    Spelled(s[3], s[2], s[1], s[0]);
    if U32(Little, s) == SECTION_HEADER {
      SameDigits(s[0], s[1], s[2], s[3], 0x0A, 0x0D, 0x0D, 0x0A);
    }
    if U32(Big, s) == SECTION_HEADER {
      SameDigits(s[3], s[2], s[1], s[0], 0x0A, 0x0D, 0x0D, 0x0A);
    }
  }

  lemma MagicDecides(o: Order)
    ensures MagicOrder(Put32(o, BYTE_ORDER_MAGIC)) == Some(o)
  {
    var s := Put32(o, BYTE_ORDER_MAGIC);
    assert s == [s[0], s[1], s[2], s[3]];
    Spelled(s[0], s[1], s[2], s[3]);
    Spelled(s[3], s[2], s[1], s[0]);
    if o.Big? {
      SameDigits(s[3], s[2], s[1], s[0], 0x4D, 0x3C, 0x2B, 0x1A);
    }
  }

  lemma {:induction false} WalkPrintedBlock(o: Order, b: Block, rest: seq<Byte>)
    requires ValidBlock(b)
    ensures Walk(PrintBlock(o, b) + rest, Some(o))
            == Counted(if IsPacket(b.typ) then 1 else 0, Walk(rest, Some(o)))
  {
    var s := PrintBlock(o, b) + rest;
    var total := |b.body| + 12;
    assert s[..4] == Put32(o, b.typ) && s[4..8] == Put32(o, total) && s[total - 4..total] == Put32(o, total);
    HeaderPalindrome(o, s[..4]);
    assert Walk(s, Some(o)) == WalkBody(s, Kind(o, false, IsPacket(b.typ)));
    assert s[total..] == rest;
  }

  lemma {:induction false} WalkPrintedHeader(o: Order, options: seq<Byte>, rest: seq<Byte>, prior: Option<Order>)
    requires |options| % 4 == 0 && |options| + 16 < U32_LIMIT
    ensures Walk(PrintHeader(o, options) + rest, prior) == Walk(rest, Some(o))
  {
    var s := PrintHeader(o, options) + rest;
    var total := |options| + 16;
    assert s[..4] == Put32(o, SECTION_HEADER) && s[4..8] == Put32(o, total);
    assert s[8..12] == Put32(o, BYTE_ORDER_MAGIC) && s[total - 4..total] == Put32(o, total);
    HeaderPalindrome(o, s[..4]);
    MagicDecides(o);
    assert Walk(s, prior) == WalkHeader(s) == WalkBody(s, Kind(o, true, false));
    assert s[total..] == rest;
  }

  /** An accepted ordinary block is a printed one. */
  lemma ParseBlock(s: seq<Byte>, o: Order) returns (b: Block, rest: seq<Byte>)
    requires s != [] && Walk(s, Some(o)).Ok? && U32(Little, s[..4]) != SECTION_HEADER
    ensures ValidBlock(b) && s == PrintBlock(o, b) + rest && Walk(rest, Some(o)).Ok?
  {
    assert Walk(s, Some(o)) == WalkBody(s, Kind(o, false, IsPacket(U32(o, s[..4]))));
    var n := U32(o, s[4..8]);
    b, rest := Block(U32(o, s[..4]), s[8..n - 4]), s[n..];
    HeaderPalindrome(o, s[..4]);
    U32Injective(o, s[..4], Put32(o, b.typ));
    U32Injective(o, s[4..8], Put32(o, n));
    U32Injective(o, s[n - 4..n], Put32(o, n));
    assert s == s[..4] + s[4..8] + s[8..n - 4] + s[n - 4..n] + s[n..];
  }

  /** An accepted section header is a printed one, in the order its magic names. */
  lemma ParseHeader(s: seq<Byte>, prior: Option<Order>) returns (o: Order, options: seq<Byte>, rest: seq<Byte>)
    requires s != [] && Walk(s, prior).Ok? && U32(Little, s[..4]) == SECTION_HEADER
    ensures |options| % 4 == 0 && |options| + 16 < U32_LIMIT
    ensures s == PrintHeader(o, options) + rest && Walk(rest, Some(o)).Ok?
  {
    assert Walk(s, prior) == WalkHeader(s);
    o := MagicOrder(s[8..12]).value;
    assert WalkHeader(s) == WalkBody(s, Kind(o, true, false));
    var n := U32(o, s[4..8]);
    options, rest := s[12..n - 4], s[n..];
    HeaderPalindrome(o, s[..4]);
    U32Injective(o, s[..4], Put32(o, SECTION_HEADER));
    U32Injective(o, s[4..8], Put32(o, n));
    U32Injective(o, s[8..12], Put32(o, BYTE_ORDER_MAGIC));
    U32Injective(o, s[n - 4..n], Put32(o, n));
    assert s == s[..4] + s[4..8] + s[8..12] + s[12..n - 4] + s[n - 4..n] + s[n..];
  }

  // ------------------------------------------------- printing, then walking

  lemma FirstBlock(o: Order, bs: seq<Block>, rest: seq<Byte>)
    requires bs != [] && (forall b :: b in bs ==> ValidBlock(b))
    ensures PrintBlocks(o, bs) + rest == PrintBlock(o, bs[0]) + (PrintBlocks(o, bs[1..]) + rest)
  {
  }

  lemma {:induction false} WalkPrintedBlocks(o: Order, bs: seq<Block>, rest: seq<Byte>)
    requires forall b :: b in bs ==> ValidBlock(b)
    ensures Walk(PrintBlocks(o, bs) + rest, Some(o)) == Counted(BlockPackets(bs), Walk(rest, Some(o)))
  {
    if bs == [] {
      assert PrintBlocks(o, bs) + rest == rest;
    } else {
      FirstBlock(o, bs, rest);
      WalkPrintedBlock(o, bs[0], PrintBlocks(o, bs[1..]) + rest);
      WalkPrintedBlocks(o, bs[1..], rest);
    }
  }

  lemma {:induction false} WalkPrintedSection(s: Section, rest: seq<Byte>, prior: Option<Order>)
    requires ValidSection(s)
    ensures Walk(PrintHeader(s.order, s.options) + (PrintBlocks(s.order, s.blocks) + rest), prior)
            == Counted(BlockPackets(s.blocks), Walk(rest, Some(s.order)))
  {
    WalkPrintedHeader(s.order, s.options, PrintBlocks(s.order, s.blocks) + rest, prior);
    WalkPrintedBlocks(s.order, s.blocks, rest);
  }

  lemma {:induction false} WalkPrinted(ss: seq<Section>, prior: Option<Order>)
    requires ValidSections(ss) && (ss == [] ==> prior.Some?)
    ensures Walk(Print(ss), prior) == Ok(Packets(ss))
  {
    if ss != [] {
      assert ValidSection(ss[0]);
      WalkPrintedSection(ss[0], Print(ss[1..]), prior);
      WalkPrinted(ss[1..], Some(ss[0].order));
    }
  }

  // ------------------------------------------------- walking, then printing

  /** An accepted rest is blocks of the section in force followed by further sections. */
  lemma {:induction false} ParseRest(s: seq<Byte>, o: Order) returns (bs: seq<Block>, ss: seq<Section>)
    requires Walk(s, Some(o)).Ok?
    ensures (forall b :: b in bs ==> ValidBlock(b)) && ValidSections(ss)
    ensures s == PrintBlocks(o, bs) + Print(ss)
    decreases |s|, 1
  {
    if s == [] {
      bs, ss := [], [];
    } else if U32(Little, s[..4]) == SECTION_HEADER {
      bs := [];
      ss := ParseSections(s, Some(o));
    } else {
      var b, rest := ParseBlock(s, o);
      var more;
      more, ss := ParseRest(rest, o);
      bs := [b] + more;
      assert bs[1..] == more;
    }
  }

  lemma {:induction false} ParseSections(s: seq<Byte>, prior: Option<Order>) returns (ss: seq<Section>)
    requires Walk(s, prior).Ok? && s != [] && U32(Little, s[..4]) == SECTION_HEADER
    ensures ss != [] && ValidSections(ss) && Print(ss) == s
    decreases |s|, 0
  {
    var o, options, rest := ParseHeader(s, prior);
    var bs, more := ParseRest(rest, o);
    ss := [Section(o, options, bs)] + more;
    assert ss[1..] == more;
  }

  // ------------------------------------------------------------------- cuts

  /** Lengths of the blocks of a stream, section headers included, in stream order. */
  function Lengths(ss: seq<Section>): seq<nat> {
    if ss == [] then [] else [|ss[0].options| + 16] + BodyLengths(ss[0].blocks) + Lengths(ss[1..])
  }

  function BodyLengths(bs: seq<Block>): seq<nat> {
    if bs == [] then [] else [|bs[0].body| + 12] + BodyLengths(bs[1..])
  }

  function Sum(ns: seq<nat>): nat { if ns == [] then 0 else ns[0] + Sum(ns[1..]) }

  /** k is the end of one of the first blocks, or the very start. */
  ghost predicate AtEnd(ns: seq<nat>, k: nat) {
    exists n :: 0 <= n <= |ns| && k == Sum(ns[..n])
  }

  lemma AtEndStep(first: nat, rest: seq<nat>, k: nat)
    requires 0 < first
    ensures AtEnd([first] + rest, k) <==> k == 0 || (k >= first && AtEnd(rest, k - first))
  {
    var ns := [first] + rest;
    if AtEnd(ns, k) && k != 0 {
      var n :| 0 <= n <= |ns| && k == Sum(ns[..n]);
      assert ns[..n][1..] == rest[..n - 1];
    }
    if k >= first && AtEnd(rest, k - first) {
      var n :| 0 <= n <= |rest| && k - first == Sum(rest[..n]);
      assert ns[..n + 1][1..] == rest[..n];
    }
    if k == 0 {
      assert ns[..0] == [];
    }
  }

  lemma {:induction false} CutBlock(o: Order, b: Block, rest: seq<Byte>, k: nat)
    requires ValidBlock(b) && 0 < k <= |b.body| + 12 + |rest|
    ensures Walk((PrintBlock(o, b) + rest)[..k], Some(o)).Ok?
            <==> k >= |b.body| + 12 && Walk(rest[..k - (|b.body| + 12)], Some(o)).Ok?
  {
    var s, n := PrintBlock(o, b) + rest, |b.body| + 12;
    if k >= n {
      assert s[..k] == PrintBlock(o, b) + rest[..k - n];
      WalkPrintedBlock(o, b, rest[..k - n]);
    } else if k >= 8 {
      var c := s[..k];
      assert s[..4] == Put32(o, b.typ) && s[4..8] == Put32(o, n);
      assert c[..4] == s[..4] && c[4..8] == s[4..8];
      HeaderPalindrome(o, c[..4]);
      assert Walk(c, Some(o)) == WalkBody(c, Kind(o, false, IsPacket(b.typ)));
    }
  }

  lemma {:induction false} CutHeader(o: Order, options: seq<Byte>, rest: seq<Byte>, prior: Option<Order>, k: nat)
    requires |options| % 4 == 0 && |options| + 16 < U32_LIMIT && 0 < k <= |options| + 16 + |rest|
    ensures Walk((PrintHeader(o, options) + rest)[..k], prior).Ok?
            <==> k >= |options| + 16 && Walk(rest[..k - (|options| + 16)], Some(o)).Ok?
  {
    var s, n := PrintHeader(o, options) + rest, |options| + 16;
    if k >= n {
      assert s[..k] == PrintHeader(o, options) + rest[..k - n];
      WalkPrintedHeader(o, options, rest[..k - n], prior);
    } else if k >= 8 {
      var c := s[..k];
      assert s[..4] == Put32(o, SECTION_HEADER) && s[4..8] == Put32(o, n) && s[8..12] == Put32(o, BYTE_ORDER_MAGIC);
      assert c[..4] == s[..4] && c[4..8] == s[4..8];
      HeaderPalindrome(o, c[..4]);
      assert Walk(c, prior) == WalkHeader(c);
      if k >= 12 {
        assert c[8..12] == s[8..12];
        MagicDecides(o);
        assert WalkHeader(c) == WalkBody(c, Kind(o, true, false));
      }
    }
  }

  lemma {:induction false} CutBlocks(o: Order, bs: seq<Block>, ss: seq<Section>, k: nat)
    requires (forall b :: b in bs ==> ValidBlock(b)) && ValidSections(ss)
    requires k <= |PrintBlocks(o, bs) + Print(ss)|
    ensures Walk((PrintBlocks(o, bs) + Print(ss))[..k], Some(o)).Ok? <==> AtEnd(BodyLengths(bs) + Lengths(ss), k)
    decreases |ss|, 1, |bs|
  {
    if bs == [] {
      assert PrintBlocks(o, bs) + Print(ss) == Print(ss) && BodyLengths(bs) + Lengths(ss) == Lengths(ss);
      CutSections(ss, Some(o), k);
    } else {
      var tail := PrintBlocks(o, bs[1..]) + Print(ss);
      var ns := BodyLengths(bs[1..]) + Lengths(ss);
      var first := |bs[0].body| + 12;
      assert PrintBlocks(o, bs) + Print(ss) == PrintBlock(o, bs[0]) + tail;
      assert BodyLengths(bs) + Lengths(ss) == [first] + ns;
      AtEndStep(first, ns, k);
      if k > 0 {
        CutBlock(o, bs[0], tail, k);
        if k >= first {
          CutBlocks(o, bs[1..], ss, k - first);
        }
      }
    }
  }

  lemma {:induction false} CutSection(s: Section, ss: seq<Section>, prior: Option<Order>, k: nat)
    requires ValidSection(s) && ValidSections(ss) && ValidSections([s] + ss) && 0 < k <= |Print([s] + ss)|
    ensures Walk(Print([s] + ss)[..k], prior).Ok? <==> AtEnd(Lengths([s] + ss), k)
    decreases |ss|, 2
  {
    var tail := PrintBlocks(s.order, s.blocks) + Print(ss);
    var ns := BodyLengths(s.blocks) + Lengths(ss);
    var first := |s.options| + 16;
    assert ([s] + ss)[1..] == ss;
    assert Print([s] + ss) == PrintHeader(s.order, s.options) + tail && Lengths([s] + ss) == [first] + ns;
    AtEndStep(first, ns, k);
    CutHeader(s.order, s.options, tail, prior, k);
    if k >= first {
      CutBlocks(s.order, s.blocks, ss, k - first);
    }
  }

  lemma {:induction false} CutSections(ss: seq<Section>, prior: Option<Order>, k: nat)
    requires ValidSections(ss) && k <= |Print(ss)| && (k == 0 ==> prior.Some?)
    ensures Walk(Print(ss)[..k], prior).Ok? <==> AtEnd(Lengths(ss), k)
    decreases |ss|, 0
  {
    if k == 0 {
      assert Print(ss)[..0] == [] && Lengths(ss)[..0] == [];
    } else {
      assert ss == [ss[0]] + ss[1..] && ValidSection(ss[0]);
      CutSection(ss[0], ss[1..], prior, k);
    }
  }

  /** A prefix of a well-formed stream is accepted exactly when it is non-empty and ends
      where one of the blocks ends: every cut inside a block is rejected. */
  lemma {:induction false} CutsAreRejected(ss: seq<Section>, k: nat)
    requires ss != [] && ValidSections(ss) && k <= |Print(ss)|
    ensures Summarize(Print(ss)[..k]).Ok? <==> 0 < k && AtEnd(Lengths(ss), k)
  {
    if k > 0 {
      CutSections(ss, None, k);
    }
  }
}
