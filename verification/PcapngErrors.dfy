/** How the walker says where a stream was cut. */
module PcapngErrors {
  import opened Options
  import opened Pcapng
  import opened PcapngGrammar

  /** A block of a stream: whether it is a section header, and its length. */
  datatype Frame = Frame(header: bool, length: nat)

  function BlockFrames(bs: seq<Block>): seq<Frame> {
    if bs == [] then [] else [Frame(false, |bs[0].body| + 12)] + BlockFrames(bs[1..])
  }

  function Frames(ss: seq<Section>): seq<Frame> {
    if ss == [] then [] else [Frame(true, |ss[0].options| + 16)] + (BlockFrames(ss[0].blocks) + Frames(ss[1..]))
  }

  function Total(fs: seq<Frame>): nat { if fs == [] then 0 else fs[0].length + Total(fs[1..]) }

  /** What is missing from a block of which d bytes are left: its type and length, a section header's magic, its
      contents, or its trailer. */
  function Missing(f: Frame, d: nat): FrameError {
    if d < 8 then TruncatedHeader
    else if f.header && d < f.length - 4 then TruncatedSectionHeader
    else if d < f.length - 4 then TruncatedBlock
    else TruncatedTrailer
  }

  /** The cut at k goes through the i-th block. */
  predicate Cuts(fs: seq<Frame>, k: nat, i: nat, e: FrameError) {
    && i < |fs| && Total(fs[..i]) < k < Total(fs[..i]) + fs[i].length
    && e == Missing(fs[i], k - Total(fs[..i]))
  }

  lemma {:induction false} CutsLater(f: Frame, fs: seq<Frame>, k: nat, i: nat, e: FrameError)
    requires Cuts(fs, k, i, e)
    ensures Cuts([f] + fs, f.length + k, i + 1, e)
  {
    assert ([f] + fs)[..i + 1][1..] == fs[..i];
  }

  lemma {:induction false} CutsFirst(f: Frame, fs: seq<Frame>, k: nat)
    requires 0 < k < f.length
    ensures Cuts([f] + fs, k, 0, Missing(f, k))
  {
    assert ([f] + fs)[..0] == [];
  }

  lemma {:induction false} BlockCut(o: Order, b: Block, rest: seq<Byte>, k: nat)
    requires ValidBlock(b) && 0 < k < |b.body| + 12
    ensures Walk((PrintBlock(o, b) + rest)[..k], Some(o)) == Err(Missing(Frame(false, |b.body| + 12), k))
  {
    var s, n := PrintBlock(o, b) + rest, |b.body| + 12;
    var c := s[..k];
    if k >= 8 {
      assert s[..4] == Put32(o, b.typ) && s[4..8] == Put32(o, n);
      assert c[..4] == s[..4] && c[4..8] == s[4..8];
      HeaderPalindrome(o, c[..4]);
      assert Walk(c, Some(o)) == WalkBody(c, Kind(o, false, IsPacket(b.typ)));
    }
  }

  lemma {:induction false} HeaderCut(o: Order, options: seq<Byte>, rest: seq<Byte>, prior: Option<Order>, k: nat)
    requires |options| % 4 == 0 && |options| + 16 < U32_LIMIT && 0 < k < |options| + 16
    ensures Walk((PrintHeader(o, options) + rest)[..k], prior) == Err(Missing(Frame(true, |options| + 16), k))
  {
    var s, n := PrintHeader(o, options) + rest, |options| + 16;
    var c := s[..k];
    if k >= 8 {
      assert s[..4] == Put32(o, SECTION_HEADER) && s[4..8] == Put32(o, n) && s[8..12] == Put32(o, BYTE_ORDER_MAGIC);
      assert c[..4] == s[..4] && c[4..8] == s[4..8];
      HeaderPalindrome(o, c[..4]);
      assert Walk(c, prior) == WalkHeader(c);
      if k >= 12 {
        assert c[8..12] == s[8..12];
        MagicDecides(o);
        assert WalkHeader(c) == WalkBody(c, Kind(o, true, false));
      }
    }
  }

  lemma {:induction false} PastBlock(o: Order, b: Block, rest: seq<Byte>, k: nat)
    requires ValidBlock(b) && |b.body| + 12 <= k <= |b.body| + 12 + |rest|
    ensures Walk((PrintBlock(o, b) + rest)[..k], Some(o))
            == Counted(if IsPacket(b.typ) then 1 else 0, Walk(rest[..k - (|b.body| + 12)], Some(o)))
  {
    var n := |b.body| + 12;
    assert (PrintBlock(o, b) + rest)[..k] == PrintBlock(o, b) + rest[..k - n];
    WalkPrintedBlock(o, b, rest[..k - n]);
  }

  lemma {:induction false} PastHeader(o: Order, options: seq<Byte>, rest: seq<Byte>, prior: Option<Order>, k: nat)
    requires |options| % 4 == 0 && |options| + 16 < U32_LIMIT && |options| + 16 <= k <= |options| + 16 + |rest|
    ensures Walk((PrintHeader(o, options) + rest)[..k], prior) == Walk(rest[..k - (|options| + 16)], Some(o))
  {
    var n := |options| + 16;
    assert (PrintHeader(o, options) + rest)[..k] == PrintHeader(o, options) + rest[..k - n];
    WalkPrintedHeader(o, options, rest[..k - n], prior);
  }

  lemma {:induction false} BlocksCut(o: Order, bs: seq<Block>, ss: seq<Section>, k: nat) returns (i: nat)
    requires (forall b :: b in bs ==> ValidBlock(b)) && ValidSections(ss) && k <= |PrintBlocks(o, bs) + Print(ss)|
    requires Walk((PrintBlocks(o, bs) + Print(ss))[..k], Some(o)).Err?
    ensures Cuts(BlockFrames(bs) + Frames(ss), k, i, Walk((PrintBlocks(o, bs) + Print(ss))[..k], Some(o)).error)
    decreases |ss|, 1, |bs|
  {
    if bs == [] {
      assert PrintBlocks(o, bs) + Print(ss) == Print(ss) && BlockFrames(bs) + Frames(ss) == Frames(ss);
      i := SectionsCut(ss, Some(o), k);
    } else {
      var tail := PrintBlocks(o, bs[1..]) + Print(ss);
      var f, fs := Frame(false, |bs[0].body| + 12), BlockFrames(bs[1..]) + Frames(ss);
      FirstBlock(o, bs, Print(ss));
      assert BlockFrames(bs) + Frames(ss) == [f] + fs;
      if k >= f.length {
        PastBlock(o, bs[0], tail, k);
        i := BlocksCut(o, bs[1..], ss, k - f.length);
        CutsLater(f, fs, k - f.length, i, Walk(tail[..k - f.length], Some(o)).error);
        i := i + 1;
      } else {
        i := 0;
        BlockCut(o, bs[0], tail, k);
        CutsFirst(f, fs, k);
      }
    }
  }

  lemma {:induction false} SectionsCut(ss: seq<Section>, prior: Option<Order>, k: nat) returns (i: nat)
    requires ValidSections(ss) && k <= |Print(ss)| && (k == 0 ==> prior.Some?)
    requires Walk(Print(ss)[..k], prior).Err?
    ensures Cuts(Frames(ss), k, i, Walk(Print(ss)[..k], prior).error)
    decreases |ss|, 0
  {
    assert k > 0 && ValidSection(ss[0]);
    var o, options, blocks := ss[0].order, ss[0].options, ss[0].blocks;
    var tail := PrintBlocks(o, blocks) + Print(ss[1..]);
    var f, fs := Frame(true, |options| + 16), BlockFrames(blocks) + Frames(ss[1..]);
    assert Print(ss) == PrintHeader(o, options) + tail && Frames(ss) == [f] + fs;
    if k >= f.length {
      PastHeader(o, options, tail, prior, k);
      i := BlocksCut(o, blocks, ss[1..], k - f.length);
      CutsLater(f, fs, k - f.length, i, Walk(tail[..k - f.length], Some(o)).error);
      i := i + 1;
    } else {
      i := 0;
      HeaderCut(o, options, tail, prior, k);
      CutsFirst(f, fs, k);
    }
  }

  /** A well-formed stream cut off inside a block is rejected with what that block is missing; an empty one as
      empty. */
  lemma {:induction false} CutSaysWhatIsMissing(ss: seq<Section>, k: nat)
    requires ss != [] && ValidSections(ss) && k <= |Print(ss)| && Summarize(Print(ss)[..k]).Err?
    ensures k == 0 ==> Summarize(Print(ss)[..k]).error.EmptyStream?
    ensures k > 0 ==> exists i: nat :: Cuts(Frames(ss), k, i, Summarize(Print(ss)[..k]).error)
  {
    if k > 0 { var i := SectionsCut(ss, None, k); }
  }

  // ------------------------------------------------------------ damage at the front of a stream

  /** A block that gives itself a length too short or not a multiple of four. */
  lemma {:induction false} BadLength(o: Order, typ: nat, total: nat, rest: seq<Byte>)
    requires typ < U32_LIMIT && typ != 0x0A0D0D0A && total < U32_LIMIT && (total < 12 || total % 4 != 0)
    ensures Walk(Put32(o, typ) + Put32(o, total) + rest, Some(o)) == Err(BadBlockLength)
  {
    var s := Put32(o, typ) + Put32(o, total) + rest;
    assert s[..4] == Put32(o, typ) && s[4..8] == Put32(o, total);
    HeaderPalindrome(o, s[..4]);
    assert Walk(s, Some(o)) == WalkBody(s, Kind(o, false, IsPacket(typ)));
  }

  /** A section header that does. */
  lemma {:induction false} BadHeaderLength(o: Order, total: nat, rest: seq<Byte>, prior: Option<Order>)
    requires total < U32_LIMIT && (total < 16 || total % 4 != 0)
    ensures Walk(Put32(o, 0x0A0D0D0A) + Put32(o, total) + Put32(o, 0x1A2B3C4D) + rest, prior) == Err(BadSectionLength)
  {
    var s := Put32(o, 0x0A0D0D0A) + Put32(o, total) + Put32(o, 0x1A2B3C4D) + rest;
    assert s[..4] == Put32(o, 0x0A0D0D0A) && s[4..8] == Put32(o, total) && s[8..12] == Put32(o, 0x1A2B3C4D);
    HeaderPalindrome(o, s[..4]);
    MagicDecides(o);
    assert Walk(s, prior) == WalkHeader(s) == WalkBody(s, Kind(o, true, false));
  }

  /** A section header whose magic spells neither byte order. */
  lemma {:induction false} NoByteOrder(o: Order, total: nat, magic: seq<Byte>, rest: seq<Byte>, prior: Option<Order>)
    requires total < U32_LIMIT && |magic| == 4
    requires magic !in {[0x1A, 0x2B, 0x3C, 0x4D], [0x4D, 0x3C, 0x2B, 0x1A]}
    ensures Walk(Put32(o, 0x0A0D0D0A) + Put32(o, total) + magic + rest, prior) == Err(BadMagic)
  {
    var s := Put32(o, 0x0A0D0D0A) + Put32(o, total) + magic + rest;
    assert s[..4] == Put32(o, 0x0A0D0D0A) && s[8..12] == magic;
    HeaderPalindrome(o, s[..4]);
    assert Walk(s, prior) == WalkHeader(s);
    assert magic == [magic[0], magic[1], magic[2], magic[3]];
    Spelled(magic[0], magic[1], magic[2], magic[3]);
    Spelled(magic[3], magic[2], magic[1], magic[0]);
    if U32(Little, magic) == 0x1A2B3C4D {
      SameDigits(magic[0], magic[1], magic[2], magic[3], 0x4D, 0x3C, 0x2B, 0x1A);
    }
    if U32(Big, magic) == 0x1A2B3C4D {
      SameDigits(magic[3], magic[2], magic[1], magic[0], 0x4D, 0x3C, 0x2B, 0x1A);
    }
  }

  /** A stream that does not start with a section header. */
  lemma NoHeader(s: seq<Byte>)
    requires |s| >= 8 && s[..4] != [0x0A, 0x0D, 0x0D, 0x0A]
    ensures Walk(s, None) == Err(NoSectionHeader)
  {
    HeaderSpelling(s[..4]);
  }

  /** A block whose trailer does not repeat its length. */
  lemma {:induction false} BadTrailer(o: Order, b: Block, trailer: nat, rest: seq<Byte>)
    requires ValidBlock(b) && trailer < U32_LIMIT && trailer != |b.body| + 12
    ensures Walk(Put32(o, b.typ) + Put32(o, |b.body| + 12) + b.body + Put32(o, trailer) + rest, Some(o))
            == Err(TrailerMismatch)
  {
    var n := |b.body| + 12;
    var s := Put32(o, b.typ) + Put32(o, n) + b.body + Put32(o, trailer) + rest;
    assert s[..4] == Put32(o, b.typ) && s[4..8] == Put32(o, n) && s[n - 4..n] == Put32(o, trailer);
    HeaderPalindrome(o, s[..4]);
    assert Walk(s, Some(o)) == WalkBody(s, Kind(o, false, IsPacket(b.typ)));
  }
}
