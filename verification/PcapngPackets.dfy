/** Which streams the walker accepts, and which of their blocks it counts. */
module PcapngPackets {
  import opened Options
  import opened Pcapng
  import opened PcapngGrammar

  /** Where the packets are: the obsolete packet, simple packet and enhanced packet blocks of the format. */
  ghost function PacketPositions(ss: seq<Section>): set<(nat, nat)> {
    set i: nat, j: nat | i < |ss| && j < |ss[i].blocks| && ss[i].blocks[j].typ in {0x2, 0x3, 0x6} :: (i, j)
  }

  ghost function BlockPositions(bs: seq<Block>): set<nat> { set j: nat | j < |bs| && bs[j].typ in {0x2, 0x3, 0x6} }

  lemma {:induction false} SameSize<A(!new), B(!new)>(a: set<A>, b: set<B>, f: A -> B)
    requires forall x :: x in a ==> f(x) in b
    requires forall x, y :: x in a && y in a && f(x) == f(y) ==> x == y
    requires forall y :: y in b ==> exists x :: x in a && f(x) == y
    ensures |a| == |b|
  {
    if a == {} {
      assert b == {};
    } else {
      var x :| x in a;
      SameSize(a - {x}, b - {f(x)}, f);
    }
  }

  lemma Parts<A>(all: set<A>, part: set<A>)
    requires part <= all
    ensures |all| == |part| + |all - part|
  {
    assert all == part + (all - part);
  }

  lemma LaterBlocks(bs: seq<Block>)
    requires bs != []
    ensures |BlockPositions(bs)| == |BlockPositions(bs[1..])| + if bs[0].typ in {0x2, 0x3, 0x6} then 1 else 0
  {
    var rest, all := BlockPositions(bs[1..]), BlockPositions(bs);
    var first := if 0 in all then {0} else {};
    var f := (j: nat) => j + 1;
    forall j | j in all - first ensures exists x :: x in rest && f(x) == j {
      assert bs[j] == bs[1..][j - 1];
      assert j - 1 in rest && f(j - 1) == j;
    }
    SameSize(rest, all - first, f);
    Parts(all, first);
  }

  lemma {:induction false} BlocksCounted(bs: seq<Block>)
    ensures BlockPackets(bs) == |BlockPositions(bs)|
  {
    if bs != [] {
      LaterBlocks(bs);
      BlocksCounted(bs[1..]);
    }
  }

  ghost function FirstPositions(ss: seq<Section>): set<(nat, nat)> { set p | p in PacketPositions(ss) && p.0 == 0 }

  lemma FirstCounted(ss: seq<Section>)
    requires ss != []
    ensures |FirstPositions(ss)| == |BlockPositions(ss[0].blocks)|
  {
    var a, b := BlockPositions(ss[0].blocks), FirstPositions(ss);
    var f := (j: nat) => (0, j);
    forall p | p in b ensures exists j :: j in a && f(j) == p {
      assert p.1 in a && f(p.1) == p;
    }
    SameSize(a, b, f);
  }

  lemma RestCounted(ss: seq<Section>)
    requires ss != []
    ensures |PacketPositions(ss) - FirstPositions(ss)| == |PacketPositions(ss[1..])|
  {
    var a, b := PacketPositions(ss[1..]), PacketPositions(ss) - FirstPositions(ss);
    var f := (p: (nat, nat)) => (p.0 + 1, p.1);
    forall p | p in b ensures exists q :: q in a && f(q) == p {
      assert ss[p.0] == ss[1..][p.0 - 1];
      assert (p.0 - 1, p.1) in a && f((p.0 - 1, p.1)) == p;
    }
    SameSize(a, b, f);
  }

  lemma LaterSections(ss: seq<Section>)
    requires ss != []
    ensures |PacketPositions(ss)| == |BlockPositions(ss[0].blocks)| + |PacketPositions(ss[1..])|
  {
    FirstCounted(ss);
    RestCounted(ss);
    Parts(PacketPositions(ss), FirstPositions(ss));
  }

  /** What the grammar counts is the number of those positions. */
  lemma {:induction false} PacketsCounted(ss: seq<Section>)
    ensures Packets(ss) == |PacketPositions(ss)|
  {
    if ss != [] {
      LaterSections(ss);
      BlocksCounted(ss[0].blocks);
      PacketsCounted(ss[1..]);
    }
  }

  ghost predicate WellFormed(s: seq<Byte>) {
    exists ss :: ss != [] && ValidSections(ss) && Print(ss) == s
  }

  /** The walk succeeds exactly on the printed non-empty lists of sections, and then reports
      the packets any such list holds, the whole length, and every byte hashed once. */
  lemma WalkerAcceptsExactlyTheGrammar(s: seq<Byte>)
    ensures Summarize(s).Ok? <==> WellFormed(s)
    ensures forall ss :: ss != [] && ValidSections(ss) && Print(ss) == s
              ==> Summarize(s) == Ok(Summary(|PacketPositions(ss)|, |s|, s))
  {
    if Summarize(s).Ok? {
      var ss := ParseSections(s, None);
    }
    forall ss | ss != [] && ValidSections(ss) && Print(ss) == s
      ensures Summarize(s) == Ok(Summary(|PacketPositions(ss)|, |s|, s))
    {
      WalkPrinted(ss, None);
      PacketsCounted(ss);
    }
  }
}
