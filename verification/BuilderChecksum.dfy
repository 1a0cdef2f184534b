/** The checksums of the fake: what the incremental update keeps and what the fresh one establishes. */
module BuilderChecksum {
  import opened Bytes
  import opened Common
  import opened Checksum
  import opened Packets
  import opened Abi
  import opened Builder
  import opened BuilderParse

  /** The sum a receiver takes over the pseudo-header and the segment. */
  function SegmentSum(n: Network, b: seq<byte>): nat
    requires n.l4 <= n.end <= |b|
  {
    WordSum(PseudoHeader(n.source, n.destination, n.family, n.protocol, n.end - n.l4)) + WordSum(b[n.l4..n.end])
  }

  /** A receiver accepts the transport checksum: the sum is all ones. */
  predicate Verifies(f: Frame, mode: Mode) {
    var r := LayersOf(f, mode);
    r.Success? && Fold(SegmentSum(r.value.network, f.bytes)) == 0xffff
  }

  lemma {:induction false} WordSumBe16(n: u16)
    ensures WordSum(Be16(n)) == n
  {
    WordSumPair(n / 256 % 256, n % 256);
  }

  /** The pseudo-header sum does not depend on the order of the addresses. */
  lemma {:induction false} PseudoHeaderSum(s: seq<byte>, d: seq<byte>, family: nat, protocol: byte, length: u16)
    requires |s| % 2 == 0 && |d| % 2 == 0
    ensures WordSum(PseudoHeader(s, d, family, protocol, length)) == WordSum(s) + WordSum(d) + protocol + length
  {
    WordSumBe16(length);
    WordSumPair(0, protocol);
    if family == 4 {
      WordSumConcat(s + d, [0, protocol] + Be16(length));
      WordSumConcat([0, protocol], Be16(length));
    } else {
      WordSumConcat(s + d, Be32(length) + [0, 0, 0, protocol]);
      WordSumConcat(Be32(length), [0, 0, 0, protocol]);
      WordSumConcat(Be16(0), Be16(length));
      WordSumBe16(0);
      assert [0, 0, 0, protocol] == [0, 0] + [0, protocol];
      WordSumConcat([0, 0], [0, protocol]);
      WordSumPair(0, 0);
    }
    WordSumConcat(s, d);
  }

  // ---------- the checksum field ----------

  lemma {:induction false} IncrementalResidue(p: Packet, before: nat, after: nat, transport: u16)
    requires p.l4 <= p.end < U32 && (p.key.protocol == 17 ==> p.checksum != 0)
    ensures Congruent(Incremental(p, before, after, transport),
                      p.checksum + before - after + (p.end - p.l4) - transport)
  {
    hide ReplaceByDiff, Replace4, Fold, Congruent;
    var udp, length := p.key.protocol == 17, p.end - p.l4;
    var sum := 0xffff - Fold(before) + after;
    var delta := Fold(sum);
    var first := Mangled(udp, p.checksum, ReplaceByDiff(p.checksum, delta));
    var last := Mangled(udp, first, Replace4(first, length, transport));
    FoldResidue(before);
    FoldResidue(sum);
    AllOnesIsZero();
    CongruentSum(0xffff, 0, Fold(before), before);
    CongruentSum(0xffff - Fold(before), 0 - before, after, after);
    CongruentTrans(delta, sum, after - before);
    ReplaceByDiffResidue(p.checksum, delta);
    CongruentTrans(first, ReplaceByDiff(p.checksum, delta), p.checksum - delta);
    CongruentRefl(p.checksum);
    CongruentSum(p.checksum, p.checksum, delta, after - before);
    CongruentTrans(first, p.checksum - delta, p.checksum - (after - before));
    Replace4Residue(first, length, transport);
    CongruentTrans(last, Replace4(first, length, transport), first + length - transport);
    CongruentRefl(length - transport);
    CongruentSum(first, p.checksum - (after - before), length - transport, length - transport);
    CongruentTrans(last, first + length - transport, p.checksum - (after - before) + length - transport);
  }

  lemma AllOnesIsZero()
    ensures Congruent(0xffff, 0)
  {
  }

  lemma CongruentRefl(n: int)
    ensures Congruent(n, n)
  {
  }

  lemma {:induction false} FromNothingResidue(data: nat, pseudo: nat)
    ensures FromNothing(data, pseudo) != 0
    ensures Congruent(FromNothing(data, pseudo), 0 - data - pseudo)
  {
    hide ReplaceByDiff, Fold, Congruent;
    var first := Mangled(true, 0xffff, ReplaceByDiff(0xffff, Fold(data)));
    var last := Mangled(true, first, ReplaceByDiff(first, Fold(pseudo)));
    FoldResidue(data);
    FoldResidue(pseudo);
    AllOnesIsZero();
    ReplaceByDiffResidue(0xffff, Fold(data));
    CongruentSum(0xffff, 0, Fold(data), data);
    CongruentTrans(first, ReplaceByDiff(0xffff, Fold(data)), 0xffff - Fold(data));
    CongruentTrans(first, 0xffff - Fold(data), 0 - data);
    ReplaceByDiffResidue(first, Fold(pseudo));
    CongruentSum(first, 0 - data, Fold(pseudo), pseudo);
    CongruentTrans(last, ReplaceByDiff(first, Fold(pseudo)), first - Fold(pseudo));
    CongruentTrans(last, first - Fold(pseudo), 0 - data - pseudo);
  }

  // ---------- the sum over the fake segment ----------

  /** The header buffer is zero beyond the header, and its field holds the seed. */
  lemma {:induction false} SeededSums(p: Packet, reverse: bool, transport: nat, checksum: u16)
    requires p.key.protocol == 6 || p.key.protocol == 17
    ensures WordSum(TransportHeader(p, reverse, transport, checksum))
            == WordSum(Seeded(p, reverse, transport)) - (if Fresh(p) && p.key.protocol == 17 then 0 else p.checksum)
                + checksum
  {
    var (s, n, at) := (Seeded(p, reverse, transport), TransportBytes(p), FieldAt(p));
    var h := s[..n];
    var seed := if Fresh(p) && p.key.protocol == 17 then 0 else p.checksum;
    SeedIs(p, reverse, transport);
    assert s == h + s[n..] && s[n..] == Zeros(20 - n);
    WordSumPadded(h, 20 - n);
    assert h[at..at + 2] == Be16(seed);
    hide Seeded;
    WordSumSplice(h, at, Be16(checksum));
    WordSumBe16(seed);
    WordSumBe16(checksum);
  }

  lemma {:induction false} SeedIs(p: Packet, reverse: bool, transport: nat)
    requires p.key.protocol == 6 || p.key.protocol == 17
    ensures var s := Seeded(p, reverse, transport);
            && s[FieldAt(p)..FieldAt(p) + 2] == Be16(if Fresh(p) && p.key.protocol == 17 then 0 else p.checksum)
            && s[TransportBytes(p)..] == Zeros(20 - TransportBytes(p))
  {
    hide Be16, Be32;
  }

  lemma {:induction false} FakeSegmentSum(f: Frame, mode: Mode, p: Packet, o: Order, t: Template, checksum: u16)
    requires Bounded(f, mode, p) && 0 < t.len <= PAYLOAD_MAX && checksum == ChecksumOf(f, p, o.reverse, t)
    ensures var (g, transport) := (Rebuilt(f, mode, p, o, t), TransportBytes(p) + t.len);
            var n := FakeNetwork(p, o, |g.bytes|);
            && n.l4 <= n.end <= |g.bytes|
            && SegmentSum(n, g.bytes) ==
                 WordSum(PseudoHeader(p.key.local, p.key.remote, p.key.family, p.key.protocol, transport))
                 + WordSum(TransportHeader(p, o.reverse, transport, checksum)) + WordSum(t.data[..t.len])
  {
    hide EthernetOf, IpOf, TransportHeader, ChecksumOf, PseudoHeader, WordSum;
    PartsPlaced(f, mode, p, o, t);
    var q := PartsOf(f, mode, p, o, t);
    var g, l4 := Rebuilt(f, mode, p, o, t), p.l3 + HeaderBytes(p);
    hide Rebuilt;
    assert g.bytes[l4..|g.bytes|] == q.th + q.payload;
    WordSumConcat(q.th, q.payload);
  }

  function AddressSum(p: Packet): nat { WordSum(p.key.local) + WordSum(p.key.remote) + p.key.protocol }

  /** Both sums, written out. */
  lemma {:induction false} FakeTotal(f: Frame, mode: Mode, p: Packet, o: Order, t: Template)
    requires Bounded(f, mode, p) && 0 < t.len <= PAYLOAD_MAX
    ensures var (g, c) := (Rebuilt(f, mode, p, o, t), ChecksumOf(f, p, o.reverse, t));
            var (n, transport) := (FakeNetwork(p, o, |g.bytes|), TransportBytes(p) + t.len);
            var data := WordSum(Seeded(p, o.reverse, transport)) + WordSum(t.data[..t.len]);
            && n.l4 <= n.end <= |g.bytes|
            && SegmentSum(n, g.bytes) == AddressSum(p) + transport + data - (if Fresh(p) then 0 else p.checksum) + c
            && SegmentSum(n, g.bytes) > 0
  {
    hide TransportHeader, ChecksumOf, PseudoHeader, WordSum, Rebuilt, Seeded, SegmentSum;
    var c, transport := ChecksumOf(f, p, o.reverse, t), TransportBytes(p) + t.len;
    FakeSegmentSum(f, mode, p, o, t, c);
    SeededSums(p, o.reverse, transport, c);
    PseudoHeaderSum(p.key.local, p.key.remote, p.key.family, p.key.protocol, transport);
  }

  lemma {:induction false} BoundedEnds(f: Frame, mode: Mode, p: Packet)
    requires Bounded(f, mode, p)
    ensures p.l4 <= p.end <= |f.bytes| <= 4096 && (p.key.protocol == 6 || p.key.protocol == 17)
    ensures |p.key.local| % 2 == 0 && |p.key.remote| % 2 == 0
  {
  }

  lemma {:induction false} OriginalTotal(f: Frame, ifindex: u32, iface: Interface, reverse: bool)
    requires Parsed(f, ifindex, iface, reverse).Success?
    ensures var (p, y) := (Parsed(f, ifindex, iface, reverse).value, LayersOf(f, iface.mode).value);
            && LayersOf(f, iface.mode).Success? && p.l4 <= p.end <= |f.bytes|
            && SegmentSum(y.network, f.bytes) == AddressSum(p) + (p.end - p.l4) + WordSum(f.bytes[p.l4..p.end])
            && SegmentSum(y.network, f.bytes) > 0
  {
    hide LayersOf, PseudoHeader, WordSum, Bounded;
    ParsedBounds(f, ifindex, iface, reverse);
    BoundedEnds(f, iface.mode, Parsed(f, ifindex, iface, reverse).value);
    var (p, y) := (Parsed(f, ifindex, iface, reverse).value, LayersOf(f, iface.mode).value);
    PseudoHeaderSum(y.network.source, y.network.destination, y.network.family, y.network.protocol, p.end - p.l4);
  }

  // ---------- the theorems ----------

  /**
   The incremental checksum: with an old checksum present, the fake verifies exactly
   when the original did. (RFC 1624 section 3; a UDP checksum of 0 means none.)
   */
  lemma {:induction false} IncrementalKeeps(f: Frame, ifindex: u32, iface: Interface, o: Order, t: Template)
    requires Parsed(f, ifindex, iface, o.reverse).Success? && 0 < t.len <= PAYLOAD_MAX
    requires var p := Parsed(f, ifindex, iface, o.reverse).value;
             !Fresh(p) && (p.key.protocol == 6 || p.checksum != 0)
    ensures Verifies(Built(f, ifindex, iface, o, t), iface.mode) <==> Verifies(f, iface.mode)
  {
    hide LayersOf, Rebuilt, ChecksumOf, WordSum, SegmentSum, Seeded, FakeNetwork, FakeTransport, Fold, Congruent,
        Incremental, Assemble, MacsSent;
    ParsedBounds(f, ifindex, iface, o.reverse);
    var (p, y) := (Parsed(f, ifindex, iface, o.reverse).value, LayersOf(f, iface.mode).value);
    var g, transport := Rebuilt(f, iface.mode, p, o, t), TransportBytes(p) + t.len;
    ParsedAssembled(f, ifindex, iface, o.reverse);
    RebuiltLayers(f, iface.mode, y, p, o, t);
    FakeTotal(f, iface.mode, p, o, t);
    OriginalTotal(f, ifindex, iface, o.reverse);
    var before := WordSum(f.bytes[p.l4..p.end]);
    var after := WordSum(Seeded(p, o.reverse, transport)) + WordSum(t.data[..t.len]);
    IncrementalResidue(p, before, after, transport);
    IncrementalIs(f, p, o.reverse, t);
    var c := ChecksumOf(f, p, o.reverse, t);
    var n := FakeNetwork(p, o, |g.bytes|);
    var rest := AddressSum(p) + transport + after - p.checksum;
    CongruentRefl(rest);
    CongruentSum(rest, rest, c, p.checksum + before - after + (p.end - p.l4) - transport);
    SameVerdict(SegmentSum(n, g.bytes), SegmentSum(y.network, f.bytes));
  }

  lemma {:induction false} IncrementalIs(f: Frame, p: Packet, reverse: bool, t: Template)
    requires p.l4 <= p.end <= |f.bytes| <= 4096 && t.len <= PAYLOAD_MAX && !Fresh(p)
    ensures var transport := TransportBytes(p) + t.len;
            ChecksumOf(f, p, reverse, t) == Incremental(p, WordSum(f.bytes[p.l4..p.end]),
                                                        WordSum(Seeded(p, reverse, transport))
                                                            + WordSum(t.data[..t.len]), transport)
  {
  }

  lemma {:induction false} FromNothingIs(f: Frame, p: Packet, reverse: bool, t: Template)
    requires p.l4 <= p.end <= |f.bytes| <= 4096 && t.len <= PAYLOAD_MAX && Fresh(p)
    ensures var transport := TransportBytes(p) + t.len;
            ChecksumOf(f, p, reverse, t) ==
              FromNothing(WordSum(Seeded(p, reverse, transport)) + WordSum(t.data[..t.len]),
                          WordSum(PseudoHeader(p.key.local, p.key.remote, p.key.family, 17, transport)))
  {
  }

  lemma SameVerdict(a: nat, b: nat)
    requires Congruent(a, b) && a > 0 && b > 0
    ensures Fold(a) == 0xffff <==> Fold(b) == 0xffff
  {
    AllOnes(a);
    AllOnes(b);
    if Congruent(b, 0) { CongruentTrans(a, b, 0); }
    if Congruent(a, 0) {
      CongruentTrans(a, b, b);
      CongruentTrans(b, a, 0);
    }
  }

  /**
   The fresh checksum: for a UDP first fragment, and for a packet behind an IPv6
   Fragment header, the fake's checksum verifies over the whole fake datagram and is
   never 0, whatever the original checksum was.
   */
  lemma {:induction false} FreshVerifies(f: Frame, ifindex: u32, iface: Interface, o: Order, t: Template)
    requires Parsed(f, ifindex, iface, o.reverse).Success? && 0 < t.len <= PAYLOAD_MAX
    requires Fresh(Parsed(f, ifindex, iface, o.reverse).value)
    ensures Verifies(Built(f, ifindex, iface, o, t), iface.mode)
    ensures LayersOf(Built(f, ifindex, iface, o, t), iface.mode).value.transport.checksum != 0
  {
    hide LayersOf, Rebuilt, ChecksumOf, WordSum, SegmentSum, Seeded, FakeNetwork, FakeTransport, Fold, Congruent,
        FromNothing, Assemble, MacsSent, PseudoHeader;
    ParsedBounds(f, ifindex, iface, o.reverse);
    var (p, y) := (Parsed(f, ifindex, iface, o.reverse).value, LayersOf(f, iface.mode).value);
    var g, transport := Rebuilt(f, iface.mode, p, o, t), TransportBytes(p) + t.len;
    ParsedAssembled(f, ifindex, iface, o.reverse);
    RebuiltLayers(f, iface.mode, y, p, o, t);
    FakeTotal(f, iface.mode, p, o, t);
    var c := ChecksumOf(f, p, o.reverse, t);
    var data := WordSum(Seeded(p, o.reverse, transport)) + WordSum(t.data[..t.len]);
    var pseudo := AddressSum(p) + transport;
    PseudoHeaderSum(p.key.local, p.key.remote, p.key.family, 17, transport);
    FromNothingIs(f, p, o.reverse, t);
    FromNothingResidue(data, pseudo);
    FakeChecksum(p, o, c);
    var n := FakeNetwork(p, o, |g.bytes|);
    CongruentRefl(pseudo + data);
    CongruentSum(pseudo + data, pseudo + data, c, 0 - data - pseudo);
    assert Congruent(SegmentSum(n, g.bytes), 0);
    AllOnes(SegmentSum(n, g.bytes));
  }

  /** A UDP datagram without a checksum yields a fake without one, and only then. */
  lemma {:induction false} AbsentStaysAbsent(f: Frame, ifindex: u32, wan: u32, iface: Interface, o: Order, t: Template)
    requires Parsed(f, ifindex, iface, o.reverse).Success? && 0 < t.len <= PAYLOAD_MAX
    requires Parsed(f, ifindex, iface, o.reverse).value.key.protocol == 17
    ensures var (p, r) := (Parsed(f, ifindex, iface, o.reverse).value,
                           Parsed(Built(f, ifindex, iface, o, t), wan, iface, false));
            r.Success? && (r.value.checksum == 0 <==> !Fresh(p) && p.checksum == 0)
  {
    hide LayersOf, Rebuilt, ChecksumOf, FakeNetwork, FakeTransport, MacsSent;
    ParsedBounds(f, ifindex, iface, o.reverse);
    var (p, y) := (Parsed(f, ifindex, iface, o.reverse).value, LayersOf(f, iface.mode).value);
    ParsedAssembled(f, ifindex, iface, o.reverse);
    RebuiltLayers(f, iface.mode, y, p, o, t);
    FakeChecksum(p, o, ChecksumOf(f, p, o.reverse, t));
    UdpChecksumPresent(f, iface.mode, p, o.reverse, t);
  }

  /** The rewritten IPv4 header sums to all ones, which the builder's own folding turns into 0. */
  lemma {:induction false} Ipv4HeaderVerifies(f: Frame, ifindex: u32, iface: Interface, o: Order, t: Template)
    requires Parsed(f, ifindex, iface, o.reverse).Success? && 0 < t.len <= PAYLOAD_MAX
    requires Parsed(f, ifindex, iface, o.reverse).value.key.family == 4
    ensures var (p, g) := (Parsed(f, ifindex, iface, o.reverse).value, Built(f, ifindex, iface, o, t));
            && p.l3 + 20 <= |g.bytes|
            && Fold(WordSum(g.bytes[p.l3..p.l3 + 20])) == 0xffff
            && WordSum(g.bytes[p.l3..p.l3 + 20]) < U32 && FoldChecksum(WordSum(g.bytes[p.l3..p.l3 + 20])) == 0
  {
    hide LayersOf, RewriteIpv4, WordSum, Fold, FoldChecksum, ChecksumOf, TransportHeader, Placed;
    ParsedBounds(f, ifindex, iface, o.reverse);
    var (p, g) := (Parsed(f, ifindex, iface, o.reverse).value, Built(f, ifindex, iface, o, t));
    var head, total := f.bytes[p.l3..p.l3 + 20], 20 + TransportBytes(p) + t.len;
    IpPart(f, iface.mode, p, o, t);
    hide Rebuilt, Bounded;
    var h := RewriteIpv4(head, p, o.ttl, total);
    PlacedSlice(g.bytes, p.l3, h, 0, 20);
    assert h[0..20] == h;
    RewrittenSum(head, p, o.ttl, total);
    WordSumBound(h);
    FoldChecksumComplements(WordSum(h));
  }

  lemma {:induction false} RewrittenSum(head: seq<byte>, p: Packet, ttl: u32, total: nat)
    requires |head| == 20 && |p.key.local| == |p.key.remote| == 4
    ensures Fold(WordSum(RewriteIpv4(head, p, ttl, total))) == 0xffff
  {
    var blank := Ipv4Header(head, p, ttl, total);
    var c := 0xffff - Fold(WordSum(blank));
    assert blank[10..12] == [0, 0];
    hide Ipv4Header, Fold, Congruent;
    WordSumSplice(blank, 10, Be16(c));
    WordSumPair(0, 0);
    WordSumBe16(c);
    FoldResidue(WordSum(blank));
    AllOnesIsZero();
    CongruentRefl(WordSum(blank));
    CongruentSum(WordSum(blank), WordSum(blank), Fold(WordSum(blank)), WordSum(blank));
    CongruentSum(WordSum(blank) - Fold(WordSum(blank)), 0, 0xffff, 0);
    FoldZero(WordSum(blank));
    AllOnes(WordSum(blank) + c);
  }

  lemma FoldZero(n: nat)
    ensures n + (0xffff - Fold(n)) > 0
  {
  }
}
