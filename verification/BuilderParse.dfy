/** What the parser makes of a rebuilt frame: the fake packet belongs to the flow it was built for. */
module BuilderParse {
  import opened Bytes
  import opened Common
  import opened Checksum
  import opened Packets
  import opened Abi
  import opened Builder

  /** The four layers of a rebuilt frame. */
  datatype Parts = Parts(eth: seq<byte>, ip: seq<byte>, th: seq<byte>, payload: seq<byte>)

  function PartsOf(f: Frame, mode: Mode, p: Packet, o: Order, t: Template): (q: Parts)
    requires Bounded(f, mode, p) && t.len <= PAYLOAD_MAX
    ensures |q.eth| == p.l3 && |q.ip| == HeaderBytes(p) && |q.th| == TransportBytes(p) && |q.payload| == t.len
  {
    var transport := TransportBytes(p) + t.len;
    Parts(EthernetOf(f.bytes[..p.l3], p, o.reverse, HeaderBytes(p) + transport),
          IpOf(f.bytes[p.l3..p.l3 + HeaderBytes(p)], p, o.ttl, transport),
          TransportHeader(p, o.reverse, transport, ChecksumOf(f, p, o.reverse, t)),
          t.data[..t.len])
  }

  predicate Placed(b: seq<byte>, at: nat, part: seq<byte>) {
    at + |part| <= |b| && forall k :: at <= k < at + |part| ==> b[k] == part[k - at]
  }

  lemma {:induction false} PlacedSlice(b: seq<byte>, at: nat, part: seq<byte>, i: nat, j: nat)
    requires Placed(b, at, part) && i <= j <= |part|
    ensures b[at + i..at + j] == part[i..j]
    ensures i < j ==> b[at + i] == part[i]
    ensures i + 2 <= j ==> Read16(b, at + i) == Read16(part, i)
  {
  }

  lemma {:induction false} PartsPlaced(f: Frame, mode: Mode, p: Packet, o: Order, t: Template)
    requires Bounded(f, mode, p) && t.len <= PAYLOAD_MAX
    ensures var (b, q) := (Rebuilt(f, mode, p, o, t).bytes, PartsOf(f, mode, p, o, t));
            var (i, h) := (p.l3 + |q.ip|, p.l3 + |q.ip| + |q.th|);
            && b == q.eth + q.ip + q.th + q.payload
            && Placed(b, 0, q.eth) && Placed(b, p.l3, q.ip) && Placed(b, i, q.th) && Placed(b, h, q.payload)
            && |b| == h + t.len
  {
    hide EthernetOf, IpOf, TransportHeader, ChecksumOf;
  }

  // ---------- link ----------

  function MacsSent(eth: seq<byte>, reverse: bool): seq<byte>
    requires |eth| == 14
  {
    (if reverse then eth[6..12] + eth[0..6] else eth[..12]) + eth[12..14]
  }

  lemma {:induction false} MacsFacts(head: seq<byte>, p: Packet, reverse: bool)
    requires |head| == p.l3 && p.l3 >= 14 && p.eth == head[..14]
    ensures MacsOf(head, p, reverse)[..14] == MacsSent(p.eth, reverse)
    ensures MacsOf(head, p, reverse)[12..] == head[12..]
  {
  }

  lemma {:induction false} EthernetFacts(head: seq<byte>, p: Packet, reverse: bool, total: nat)
    requires |head| == p.l3 && p.l3 in {14, 18, 22, 26, 30} && p.eth == head[..14] && total + 2 < U16
    requires p.key.session != 0 ==> p.l3 >= 22
    ensures LinkRewritten(head, EthernetOf(head, p, reverse, total), p.eth, p.key.session, reverse, total)
  {
    MacsFacts(head, p, reverse);
    var m := MacsOf(head, p, reverse);
    if p.key.session != 0 {
      var (e, at) := (EthernetOf(head, p, reverse, total), p.l3 - 4);
      assert e == Splice(m, at, Be16(total + 2));
      hide MacsOf, EthernetOf, Splice, Be16;
      SpliceOutside(m, at, Be16(total + 2), 0, 14);
      SpliceOutside(m, at, Be16(total + 2), 12, at);
      SpliceOutside(m, at, Be16(total + 2), at + 2, p.l3);
      SpliceInside(m, at, Be16(total + 2));
      ReadBe16(e, at, total + 2);
      assert e[..14] == e[0..14] && m[..14] == m[0..14];
      assert m[12..at] == m[12..][..at - 12] && head[12..at] == head[12..][..at - 12];
      assert e[at + 2..] == e[at + 2..p.l3];
      assert m[at + 2..p.l3] == m[12..][at - 10..] && head[at + 2..] == head[12..][at - 10..];
    }
  }

  lemma {:induction false} MacsUnicast(b: seq<byte>, eth: seq<byte>, reverse: bool)
    requires |eth| == 14 && |b| >= 14 && eth == b[..14] && b[0] % 2 == 0 && b[6] % 2 == 0
    ensures MacsSent(eth, reverse)[0] % 2 == 0 && MacsSent(eth, reverse)[6] % 2 == 0
  {
    assert MacsSent(eth, reverse)[0] in {eth[0], eth[6]} && MacsSent(eth, reverse)[6] in {eth[0], eth[6]};
  }

  /** The rewritten link layer, in terms of the original one. */
  predicate LinkRewritten(head: seq<byte>, e: seq<byte>, eth: seq<byte>, session: u16, reverse: bool, total: nat)
    requires |e| == |head| && |eth| == 14
  {
    var l3 := |e|;
    && l3 >= 14 && e[..14] == MacsSent(eth, reverse)
    && (session == 0 ==> e[12..] == head[12..])
    && (session != 0 ==> l3 >= 22 && e[12..l3 - 4] == head[12..l3 - 4] && e[l3 - 2..] == head[l3 - 2..]
                         && Read16(e, l3 - 4) == total + 2)
  }

  lemma {:induction false} LinkSlices(b: seq<byte>, c: seq<byte>, e: seq<byte>, eth: seq<byte>, session: u16,
        reverse: bool, total: nat)
    requires |e| <= |b| && |eth| == 14 && LinkRewritten(b[..|e|], e, eth, session, reverse, total) && Placed(c, 0, e)
    ensures var l3 := |e|;
            && c[..14] == MacsSent(eth, reverse)
            && (session == 0 ==> c[12..l3] == b[12..l3])
            && (session != 0 ==> c[12..l3 - 4] == b[12..l3 - 4] && c[l3 - 2..l3] == b[l3 - 2..l3]
                                 && Read16(c, l3 - 4) == total + 2)
  {
    var l3 := |e|;
    assert c[..l3] == e;
    assert c[..14] == e[..14];
    if session == 0 {
      assert c[12..l3] == e[12..] && b[12..l3] == b[..l3][12..];
    } else {
      assert c[12..l3 - 4] == e[12..l3 - 4] && b[12..l3 - 4] == b[..l3][12..l3 - 4];
      assert c[l3 - 2..l3] == e[l3 - 2..] && b[l3 - 2..l3] == b[..l3][l3 - 2..];
    }
  }

  lemma {:induction false} LinkOfPart(f: Frame, g: Frame, mode: Mode, l: Link, reverse: bool, e: seq<byte>, total: nat)
    requires LinkOf(f, mode) == Success(l) && mode != L3 && g.offload == f.offload
    requires |e| == l.l3 && Placed(g.bytes, 0, e) && |g.bytes| == l.l3 + total
    requires LinkRewritten(f.bytes[..l.l3], e, l.eth, l.session, reverse, total)
    ensures LinkOf(g, mode) == Success(l.(envelope := |g.bytes|, eth := MacsSent(l.eth, reverse)))
  {
    hide LinkOf;
    LinkSlices(f.bytes, g.bytes, e, l.eth, l.session, reverse, total);
    MacsUnicast(f.bytes, l.eth, reverse);
    assert g.bytes[0] == g.bytes[..14][0] && g.bytes[6] == g.bytes[..14][6];
    hide MacsSent, Placed, LinkRewritten;
    if mode == Ethernet {
      LinkAgrees(f, g, mode);
    } else {
      PppoeAgrees(f, g);
    }
  }

  lemma {:induction false} RebuiltLink(f: Frame, mode: Mode, l: Link, p: Packet, o: Order, t: Template)
    requires LinkOf(f, mode) == Success(l) && Bounded(f, mode, p) && 0 < t.len <= PAYLOAD_MAX
    requires p.l3 == l.l3 && p.eth == l.eth && p.key.session == l.session
    ensures var g := Rebuilt(f, mode, p, o, t);
            LinkOf(g, mode) ==
              Success(l.(envelope := |g.bytes|, eth := if mode == L3 then l.eth else MacsSent(l.eth, o.reverse)))
  {
    hide LinkOf, EthernetOf, LinkRewritten, MacsSent, Placed, IpOf, TransportHeader, ChecksumOf;
    var total := HeaderBytes(p) + TransportBytes(p) + t.len;
    EtherPart(f, mode, p, o, t);
    var (g, e) := (Rebuilt(f, mode, p, o, t), EthernetOf(f.bytes[..p.l3], p, o.reverse, total));
    hide Rebuilt;
    if mode == L3 {
      L3Agrees(f, g);
    } else {
      EthernetFacts(f.bytes[..p.l3], p, o.reverse, total);
      LinkOfPart(f, g, mode, l, o.reverse, e, total);
    }
  }

  lemma {:induction false} EtherPart(f: Frame, mode: Mode, p: Packet, o: Order, t: Template)
    requires Bounded(f, mode, p) && t.len <= PAYLOAD_MAX
    ensures var (g, total) := (Rebuilt(f, mode, p, o, t), HeaderBytes(p) + TransportBytes(p) + t.len);
            && Placed(g.bytes, 0, EthernetOf(f.bytes[..p.l3], p, o.reverse, total)) && |g.bytes| == p.l3 + total
            && g.offload == f.offload && g.gso == f.gso
  {
    PartsPlaced(f, mode, p, o, t);
    hide EthernetOf, IpOf, TransportHeader, ChecksumOf;
  }

  // ---------- network ----------

  /** Offset 0 and no more-fragments bit. */
  predicate Unfragmented(frag: u16) {
    frag % 0x2000 == 0 && (frag / 0x2000) % 2 == 0
  }

  /** The first header byte and the protocol, as the accepted original carried them. */
  lemma {:induction false} HeaderFacts(b: seq<byte>, l: Link, mode: Mode, n: Network)
    requires NetworkOf(b, l, mode) == Success(n) && (n.protocol == 6 || n.protocol == 17)
    ensures n.family == 4 ==>
              && b[l.l3] == 0x45 && b[l.l3 + 9] == n.protocol && (mode == L3 || l.proto == 0x800)
              && (!n.firstFragment ==> Unfragmented(Read16(b, l.l3 + 6)))
    ensures n.family == 6 ==>
              && b[l.l3] / 16 == 6 && (mode == L3 || l.proto == 0x86dd)
              && (!n.fragmentHeader ==> b[l.l3 + 6] == n.protocol)
  {
  }

  /** A rewritten IPv4 header, piece by piece: length, fragment word, TTL, checksum and addresses are new. */
  ghost function Ipv4Pieces(h: seq<byte>, a: seq<byte>, b: seq<byte>, f: seq<byte>, l: seq<byte>, t: seq<byte>,
      c: seq<byte>): seq<byte>
    requires |h| == 20 && |a| == |b| == 4 && |f| == |l| == |c| == 2 && |t| == 1
  {
    h[0..2] + l + h[4..6] + f + t + h[9..10] + c + a + b
  }

  lemma {:induction false} Ipv4Layout(h: seq<byte>, a: seq<byte>, b: seq<byte>, f: seq<byte>, l: seq<byte>,
        t: seq<byte>, c: seq<byte>)
    requires |h| == 20 && |a| == |b| == 4 && |f| == |l| == |c| == 2 && |t| == 1
    ensures Splice(Splice(Splice(Splice(Splice(Splice(Splice(h, 12, a), 16, b), 6, f), 2, l), 8, t), 10, [0, 0]), 10, c)
            == Ipv4Pieces(h, a, b, f, l, t, c)
  {
  }

  lemma {:induction false} Ipv4PiecesRead(h: seq<byte>, a: seq<byte>, b: seq<byte>, f: seq<byte>, l: seq<byte>,
        t: seq<byte>, c: seq<byte>)
    requires |h| == 20 && |a| == |b| == 4 && |f| == |l| == |c| == 2 && |t| == 1
    ensures var r := Ipv4Pieces(h, a, b, f, l, t, c);
            && |r| == 20 && r[0] == h[0] && r[9] == h[9] && r[8] == t[0] && r[2..4] == l && r[6..8] == f
            && r[12..16] == a && r[16..20] == b
  {
  }

  lemma {:induction false} SpliceSame(h: seq<byte>, a: seq<byte>, b: seq<byte>)
    requires |h| == 20 && |a| == |b| == 4
    ensures var s := Splice(Splice(h, 12, a), 16, b); s == Splice(s, 6, h[6..8])
  {
  }

  lemma {:induction false} Ipv4InPieces(head: seq<byte>, p: Packet, ttl: u32, total: nat, f: seq<byte>, c: seq<byte>)
    requires |head| == 20 && |p.key.local| == |p.key.remote| == 4
    requires f == (if p.firstFragment then Be16(0) else head[6..8])
    requires c == Be16(0xffff - Fold(WordSum(Ipv4Header(head, p, ttl, total))))
    ensures RewriteIpv4(head, p, ttl, total)
            == Ipv4Pieces(head, p.key.local, p.key.remote, f, Be16(total), [ttl % 256], c)
  {
    hide Be16, Fold, WordSum, Splice, Ipv4Pieces;
    SpliceSame(head, p.key.local, p.key.remote);
    Ipv4Layout(head, p.key.local, p.key.remote, f, Be16(total), [ttl % 256], c);
  }

  lemma {:induction false} Ipv4Facts(head: seq<byte>, p: Packet, ttl: u32, total: nat)
    requires |head| == 20 && |p.key.local| == |p.key.remote| == 4
    ensures var h := RewriteIpv4(head, p, ttl, total);
            && h[0] == head[0] && h[9] == head[9] && h[8] == ttl % 256 && h[2..4] == Be16(total)
            && h[6..8] == (if p.firstFragment then Be16(0) else head[6..8])
            && h[12..16] == p.key.local && h[16..20] == p.key.remote
  {
    hide *;
    var f := if p.firstFragment then Be16(0) else head[6..8];
    var c := Be16(0xffff - Fold(WordSum(Ipv4Header(head, p, ttl, total))));
    Ipv4InPieces(head, p, ttl, total, f, c);
    Ipv4PiecesRead(head, p.key.local, p.key.remote, f, Be16(total), [ttl % 256], c);
  }

  lemma {:induction false} Ipv6Facts(head: seq<byte>, p: Packet, ttl: u32, transport: nat)
    requires |head| == 40 && |p.key.local| == |p.key.remote| == 16
    ensures var h := RewriteIpv6(head, p, ttl, transport);
            && h[0] == head[0] && h[6] == (if p.fragmentHeader then 17 else head[6]) && h[7] == ttl % 256
            && h[4..6] == Be16(transport)
            && h[8..24] == p.key.local && h[24..40] == p.key.remote
  {
    hide Be16;
  }

  function FakeNetwork(p: Packet, o: Order, end: nat): Network {
    Network(p.key.family, p.key.protocol, o.ttl % 256, p.l3 + HeaderBytes(p), end, p.key.local, p.key.remote, false,
        false)
  }

  lemma {:induction false} Ipv4Reads(b: seq<byte>, off: nat, h: seq<byte>)
    requires |h| == 20 && Placed(b, off, h)
    ensures off + 20 <= |b| && b[off] == h[0] && b[off + 8] == h[8] && b[off + 9] == h[9]
    ensures Read16(b, off + 2) == Read16(h, 2) && Read16(b, off + 6) == Read16(h, 6)
    ensures b[off + 12..off + 16] == h[12..16] && b[off + 16..off + 20] == h[16..20]
  {
    assert b[off..off + 20] == h;
  }

  lemma {:induction false} Ipv4Accepts(b: seq<byte>, off: nat, frag: u16, total: u16)
    requires off + 20 <= |b| && b[off] == 0x45 && Read16(b, off + 6) == frag && Read16(b, off + 2) == total
    requires Unfragmented(frag)
    ensures Ipv4Of(b, off) == Success(Network(4, b[off + 9], b[off + 8], off + 20, off + total,
                                              b[off + 12..off + 16], b[off + 16..off + 20], false, false))
  {
  }

  lemma {:induction false} Ipv4Rebuilt(b: seq<byte>, p: Packet, o: Order, head: seq<byte>, total: nat)
    requires p.key.family == 4 && |head| == 20 && |p.key.local| == |p.key.remote| == 4 && total < U16
    requires head[0] == 0x45 && head[9] == p.key.protocol
    requires !p.firstFragment ==> Unfragmented(Read16(head, 6))
    requires Placed(b, p.l3, RewriteIpv4(head, p, o.ttl, total)) && p.l3 + total == |b|
    ensures Ipv4Of(b, p.l3) == Success(FakeNetwork(p, o, |b|))
  {
    hide RewriteIpv4, Be16, Ipv4Of, Read16, Placed, Unfragmented;
    var h := RewriteIpv4(head, p, o.ttl, total);
    Ipv4Facts(head, p, o.ttl, total);
    Ipv4Reads(b, p.l3, h);
    ReadBe16(h, 2, total);
    if p.firstFragment {
      ReadBe16(h, 6, 0);
      ZeroUnfragmented();
      Ipv4Accepts(b, p.l3, 0, total);
    } else {
      ReadSlice(h, 6, head[6..8]);
      ReadSlice(head, 6, head[6..8]);
      Ipv4Accepts(b, p.l3, Read16(head, 6), total);
    }
  }

  lemma ZeroUnfragmented()
    ensures Unfragmented(0)
  {
  }

  lemma {:induction false} Ipv6Reads(b: seq<byte>, off: nat, h: seq<byte>)
    requires |h| == 40 && Placed(b, off, h)
    ensures b[off] == h[0] && b[off + 6] == h[6] && b[off + 7] == h[7] && Read16(b, off + 4) == Read16(h, 4)
    ensures b[off + 8..off + 24] == h[8..24] && b[off + 24..off + 40] == h[24..40]
  {
    assert b[off..off + 40] == h;
  }

  lemma {:induction false} Ipv6Rebuilt(b: seq<byte>, p: Packet, o: Order, head: seq<byte>, transport: nat,
        envelope: nat)
    requires p.key.family == 6 && |head| == 40 && |p.key.local| == |p.key.remote| == 16 && transport < U16
    requires p.key.protocol == 6 || p.key.protocol == 17
    requires if p.fragmentHeader then p.key.protocol == 17 else head[6] == p.key.protocol
    requires Placed(b, p.l3, RewriteIpv6(head, p, o.ttl, transport)) && p.l3 + 40 + transport == |b|
    ensures Ipv6Of(b, p.l3, envelope) == Success(FakeNetwork(p, o, |b|))
  {
    var h := RewriteIpv6(head, p, o.ttl, transport);
    Ipv6Facts(head, p, o.ttl, transport);
    hide RewriteIpv6, Be16;
    ReadBe16(h, 4, transport);
    Ipv6Reads(b, p.l3, h);
    hide Placed;
  }

  // ---------- transport ----------

  function FakeTransport(p: Packet, o: Order, checksum: u16): Transport {
    var next := (p.seqno + 1) % U32;
    if p.key.protocol == 6 then
      Transport(20, if o.reverse then p.ack else next, if o.reverse then next else p.ack, 0x18, checksum,
                p.key.localPort, p.key.remotePort)
    else
      Transport(8, 0, 0, 0, checksum, p.key.localPort, p.key.remotePort)
  }

  lemma {:induction false} ReadBe32(s: seq<byte>, i: nat, n: u32)
    requires i + 4 <= |s| && s[i..i + 4] == Be32(n)
    ensures Read32(s, i) == n
  {
    assert s[i..i + 2] == Be32(n)[..2] && s[i + 2..i + 4] == Be32(n)[2..];
    assert Be32(n)[..2] == Be16(n / 0x1_0000) && Be32(n)[2..] == Be16(n);
    assert Read16(s, i) == s[i..i + 4][0] as int * 256 + s[i..i + 4][1] as int;
    assert Read16(s, i + 2) == s[i..i + 4][2] as int * 256 + s[i..i + 4][3] as int;
  }

  lemma {:induction false} TcpSpliced(head: seq<byte>, g: seq<byte>, k: seq<byte>)
    requires |head| == 16 && |g| == |k| == 2
    ensures Splice((head + g + [0, 0])[..20], 16, k) == head + k + [0, 0]
  {
  }

  lemma {:induction false} TcpPieces(a: seq<byte>, b: seq<byte>, c: seq<byte>, d: seq<byte>, e: seq<byte>,
        f: seq<byte>, g: seq<byte>, k: seq<byte>)
    requires |a| == |b| == |e| == |f| == |g| == |k| == 2 && |c| == |d| == 4
    ensures var h := Splice((a + b + c + d + e + f + g + [0, 0])[..20], 16, k);
            && |h| == 20 && h[0..2] == a && h[2..4] == b && h[4..8] == c && h[8..12] == d
            && h[12] == e[0] && h[13] == e[1] && h[16..18] == k
  {
    hide Splice;
    var head := a + b + c + d + e + f;
    TcpSpliced(head, g, k);
    var h := head + k + [0, 0];
    assert h[0..2] == a;
    assert h[2..4] == b;
    assert h[4..8] == c;
    assert h[8..12] == d;
    assert h[16..18] == k;
  }

  lemma {:induction false} TcpHeaderFacts(p: Packet, reverse: bool, transport: nat, checksum: u16)
    requires p.key.protocol == 6
    ensures var (h, next) := (TransportHeader(p, reverse, transport, checksum), (p.seqno + 1) % U32);
            && |h| == 20 && h[0..2] == Be16(p.key.localPort) && h[2..4] == Be16(p.key.remotePort)
            && h[4..8] == Be32(if reverse then p.ack else next) && h[8..12] == Be32(if reverse then next else p.ack)
            && h[12] == 0x50 && h[13] == 0x18 && h[16..18] == Be16(checksum)
  {
    hide Be16, Be32, Splice;
    var next := (p.seqno + 1) % U32;
    TcpPieces(Be16(p.key.localPort), Be16(p.key.remotePort), Be32(if reverse then p.ack else next),
              Be32(if reverse then next else p.ack), [0x50, 0x18], Be16(128), Be16(p.checksum), Be16(checksum));
  }

  lemma {:induction false} UdpPieces(a: seq<byte>, b: seq<byte>, c: seq<byte>, d: seq<byte>, k: seq<byte>)
    requires |a| == |b| == |c| == |d| == |k| == 2
    ensures var h := Splice((a + b + c + d + Zeros(12))[..8], 6, k);
            && |h| == 8 && h[0..2] == a && h[2..4] == b && h[4..6] == c && h[6..8] == k
  {
  }

  lemma {:induction false} UdpHeaderFacts(p: Packet, reverse: bool, transport: nat, checksum: u16)
    requires p.key.protocol == 17
    ensures var h := TransportHeader(p, reverse, transport, checksum);
            && |h| == 8 && h[0..2] == Be16(p.key.localPort) && h[2..4] == Be16(p.key.remotePort)
            && h[4..6] == Be16(transport) && h[6..8] == Be16(checksum)
  {
    hide Be16, Splice;
    UdpPieces(Be16(p.key.localPort), Be16(p.key.remotePort), Be16(transport),
              Be16(if Fresh(p) then 0 else p.checksum), Be16(checksum));
  }

  lemma {:induction false} PlacedBe16(b: seq<byte>, at: nat, h: seq<byte>, i: nat, n: u16)
    requires Placed(b, at, h) && i + 2 <= |h| && h[i..i + 2] == Be16(n)
    ensures Read16(b, at + i) == n
  {
    PlacedSlice(b, at, h, i, i + 2);
    ReadBe16(h, i, n);
  }

  lemma {:induction false} PlacedBe32(b: seq<byte>, at: nat, h: seq<byte>, i: nat, n: u32)
    requires Placed(b, at, h) && i + 4 <= |h| && h[i..i + 4] == Be32(n)
    ensures Read32(b, at + i) == n
  {
    PlacedSlice(b, at, h, i, i + 2);
    PlacedSlice(b, at, h, i + 2, i + 4);
    ReadBe32(h, i, n);
  }

  /** The words of a TCP header that was put in place. */
  lemma {:induction false} TcpReads(b: seq<byte>, l4: nat, p: Packet, o: Order, transport: nat, checksum: u16)
    requires p.key.protocol == 6 && Placed(b, l4, TransportHeader(p, o.reverse, transport, checksum))
    ensures l4 + 20 <= |b| && b[l4 + 12] == 0x50 && b[l4 + 13] == 0x18
    ensures Read16(b, l4) == p.key.localPort && Read16(b, l4 + 2) == p.key.remotePort && Read16(b, l4 + 16) == checksum
    ensures Read32(b, l4 + 4) == if o.reverse then p.ack else (p.seqno + 1) % U32
    ensures Read32(b, l4 + 8) == if o.reverse then (p.seqno + 1) % U32 else p.ack
  {
    var (h, next) := (TransportHeader(p, o.reverse, transport, checksum), (p.seqno + 1) % U32);
    TcpHeaderFacts(p, o.reverse, transport, checksum);
    hide TransportHeader, Be16, Be32, Read16, Read32;
    PlacedBe16(b, l4, h, 0, p.key.localPort);
    PlacedBe16(b, l4, h, 2, p.key.remotePort);
    PlacedBe32(b, l4, h, 4, if o.reverse then p.ack else next);
    PlacedBe32(b, l4, h, 8, if o.reverse then next else p.ack);
    PlacedByte(b, l4, h, 12);
    PlacedByte(b, l4, h, 13);
    PlacedBe16(b, l4, h, 16, checksum);
  }

  lemma PlacedByte(b: seq<byte>, at: nat, h: seq<byte>, i: nat)
    requires Placed(b, at, h) && i < |h|
    ensures at + i < |b| && b[at + i] == h[i]
  {
    PlacedSlice(b, at, h, i, i + 1);
  }

  lemma {:induction false} TcpRebuilt(b: seq<byte>, l4: nat, p: Packet, o: Order, transport: nat, checksum: u16)
    requires p.key.protocol == 6 && Placed(b, l4, TransportHeader(p, o.reverse, transport, checksum))
    ensures TcpOf(b, l4, |b|) == Success(FakeTransport(p, o, checksum))
  {
    hide TransportHeader, Placed, Read16, Read32;
    TcpReads(b, l4, p, o, transport, checksum);
  }

  lemma {:induction false} UdpRebuilt(b: seq<byte>, n: Network, p: Packet, o: Order, transport: nat, checksum: u16)
    requires p.key.protocol == 17 && Placed(b, n.l4, TransportHeader(p, o.reverse, transport, checksum))
    requires !n.firstFragment && n.end == |b| == n.l4 + transport && transport < U16
    requires n.family == 6 ==> checksum != 0
    ensures UdpOf(b, n) == Success(FakeTransport(p, o, checksum))
  {
    var h := TransportHeader(p, o.reverse, transport, checksum);
    UdpHeaderFacts(p, o.reverse, transport, checksum);
    hide TransportHeader, Be16;
    PlacedBe16(b, n.l4, h, 0, p.key.localPort);
    PlacedBe16(b, n.l4, h, 2, p.key.remotePort);
    PlacedBe16(b, n.l4, h, 4, transport);
    PlacedBe16(b, n.l4, h, 6, checksum);
    hide Read16;
  }

  // ---------- the whole frame ----------

  /** A UDP checksum is 0 afterwards only if the original packet carried none. */
  lemma {:induction false} UdpChecksumPresent(f: Frame, mode: Mode, p: Packet, reverse: bool, t: Template)
    requires Bounded(f, mode, p) && t.len <= PAYLOAD_MAX && p.key.protocol == 17
    ensures ChecksumOf(f, p, reverse, t) == 0 <==> !Fresh(p) && p.checksum == 0
  {
    hide Fold, ReplaceByDiff, Replace4, WordSum, Seeded, PseudoHeader;
  }

  /** The layers of the fake frame. */
  function FakeLayers(f: Frame, mode: Mode, y: Layers, p: Packet, o: Order, t: Template): Layers
    requires Bounded(f, mode, p) && t.len <= PAYLOAD_MAX && |y.link.eth| == 14
  {
    var end := |Rebuilt(f, mode, p, o, t).bytes|;
    Layers(y.link.(envelope := end, eth := if mode == L3 then y.link.eth else MacsSent(y.link.eth, o.reverse)),
           FakeNetwork(p, o, end), FakeTransport(p, o, ChecksumOf(f, p, o.reverse, t)))
  }

  lemma {:induction false} IpPart(f: Frame, mode: Mode, p: Packet, o: Order, t: Template)
    requires Bounded(f, mode, p) && t.len <= PAYLOAD_MAX
    ensures var g := Rebuilt(f, mode, p, o, t);
            && |g.bytes| == p.l3 + HeaderBytes(p) + TransportBytes(p) + t.len
            && Placed(g.bytes, p.l3, IpOf(f.bytes[p.l3..p.l3 + HeaderBytes(p)], p, o.ttl, TransportBytes(p) + t.len))
            && Placed(g.bytes, p.l3 + HeaderBytes(p),
                      TransportHeader(p, o.reverse, TransportBytes(p) + t.len, ChecksumOf(f, p, o.reverse, t)))
  {
    PartsPlaced(f, mode, p, o, t);
    hide EthernetOf, IpOf, TransportHeader, ChecksumOf;
  }

  lemma {:induction false} Ipv4Kept(b: seq<byte>, off: nat, head: seq<byte>)
    requires off + 20 <= |b| && |head| == 20 && head == b[off..off + 20]
    ensures head[0] == b[off] && head[9] == b[off + 9] && Read16(head, 6) == Read16(b, off + 6)
  {
  }

  lemma {:induction false} NetworkRebuilt4(b: seq<byte>, c: seq<byte>, l: Link, mode: Mode, n: Network, p: Packet,
        o: Order, total: nat)
    requires NetworkOf(b, l, mode) == Success(n) && p.key.family == n.family == 4
    requires n.protocol == p.key.protocol && (n.protocol == 6 || n.protocol == 17) && p.l3 == l.l3
    requires n.firstFragment == p.firstFragment
    requires |p.key.local| == |p.key.remote| == 4 && total < U16 && p.l3 + total == |c|
    requires Placed(c, p.l3, RewriteIpv4(b[p.l3..p.l3 + 20], p, o.ttl, total))
    ensures NetworkOf(c, l.(envelope := |c|), mode) == Success(FakeNetwork(p, o, |c|))
  {
    var head := b[p.l3..p.l3 + 20];
    HeaderFacts(b, l, mode, n);
    Ipv4Kept(b, p.l3, head);
    Ipv4Rebuilt(c, p, o, head, total);
    Ipv4Facts(head, p, o.ttl, total);
    hide RewriteIpv4, Ipv4Of, Ipv6Of, Read16;
    assert c[p.l3] == RewriteIpv4(head, p, o.ttl, total)[0];
  }

  lemma {:induction false} NetworkRebuilt6(b: seq<byte>, c: seq<byte>, l: Link, mode: Mode, n: Network, p: Packet,
        o: Order, transport: nat)
    requires NetworkOf(b, l, mode) == Success(n) && p.key.family == n.family == 6
    requires n.protocol == p.key.protocol && (n.protocol == 6 || n.protocol == 17) && p.l3 == l.l3
    requires n.fragmentHeader == p.fragmentHeader
    requires |p.key.local| == |p.key.remote| == 16 && transport < U16 && p.l3 + 40 + transport == |c|
        && p.l3 + 40 <= |b|
    requires Placed(c, p.l3, RewriteIpv6(b[p.l3..p.l3 + 40], p, o.ttl, transport))
    ensures NetworkOf(c, l.(envelope := |c|), mode) == Success(FakeNetwork(p, o, |c|))
  {
    var head := b[p.l3..p.l3 + 40];
    HeaderFacts(b, l, mode, n);
    assert head[0] == b[p.l3] && head[6] == b[p.l3 + 6];
    Ipv6Facts(head, p, o.ttl, transport);
    Ipv6Rebuilt(c, p, o, head, transport, |c|);
    hide RewriteIpv6, Ipv4Of, Ipv6Of, Read16;
    assert c[p.l3] == RewriteIpv6(head, p, o.ttl, transport)[0];
  }

  /** `p` is what the parser assembled out of the layers. */
  predicate Assembled(p: Packet, y: Layers, reverse: bool)
    requires |y.link.eth| == 14 && y.network.l4 + y.transport.hlen <= y.network.end
  {
    p == Assemble(p.key.ifindex, Interface(p.key.generation, 0, L3, 0, 0), reverse, y)
  }

  lemma {:induction false} AssembledFacts(f: Frame, mode: Mode, y: Layers, p: Packet, reverse: bool)
    requires LayersOf(f, mode) == Success(y) && Assembled(p, y, reverse)
    ensures LinkOf(f, mode) == Success(y.link) && NetworkOf(f.bytes, y.link, mode) == Success(y.network)
    ensures !f.gso && p.l3 == y.link.l3 && p.eth == y.link.eth && p.key.session == y.link.session
    ensures p.key.family == y.network.family && p.key.protocol == y.network.protocol
    ensures p.firstFragment == y.network.firstFragment && p.fragmentHeader == y.network.fragmentHeader
  {
    hide LinkOf, NetworkOf, TransportOf;
  }

  lemma {:induction false} LayersFrom(g: Frame, mode: Mode, y: Layers)
    requires !g.gso && |g.bytes| <= 4096 && LinkOf(g, mode) == Success(y.link)
    requires NetworkOf(g.bytes, y.link, mode) == Success(y.network)
    requires TransportOf(g.bytes, y.network, y.link.envelope) == Success(y.transport)
    ensures LayersOf(g, mode) == Success(y)
  {
    hide LinkOf, NetworkOf, TransportOf;
  }

  lemma {:induction false} RebuiltNetwork(f: Frame, g: Frame, mode: Mode, y: Layers, p: Packet, o: Order, t: Template)
    requires LayersOf(f, mode) == Success(y) && Bounded(f, mode, p) && 0 < t.len <= PAYLOAD_MAX
    requires Assembled(p, y, o.reverse) && g == Rebuilt(f, mode, p, o, t)
    ensures NetworkOf(g.bytes, y.link.(envelope := |g.bytes|), mode) == Success(FakeNetwork(p, o, |g.bytes|))
  {
    hide LinkOf, NetworkOf, LayersOf, ChecksumOf, TransportHeader, RewriteIpv4, RewriteIpv6, Assembled, Placed,
        FakeNetwork;
    var transport := TransportBytes(p) + t.len;
    AssembledFacts(f, mode, y, p, o.reverse);
    IpPart(f, mode, p, o, t);
    hide Rebuilt;
    if p.key.family == 4 {
      NetworkRebuilt4(f.bytes, g.bytes, y.link, mode, y.network, p, o, 20 + transport);
    } else {
      NetworkRebuilt6(f.bytes, g.bytes, y.link, mode, y.network, p, o, transport);
    }
  }

  lemma {:induction false} RebuiltTransport(f: Frame, g: Frame, mode: Mode, p: Packet, o: Order, t: Template,
        n: Network)
    requires Bounded(f, mode, p) && 0 < t.len <= PAYLOAD_MAX && g == Rebuilt(f, mode, p, o, t)
    requires n == FakeNetwork(p, o, |g.bytes|)
    ensures TransportOf(g.bytes, n, |g.bytes|) == Success(FakeTransport(p, o, ChecksumOf(f, p, o.reverse, t)))
  {
    hide TransportOf, ChecksumOf, TransportHeader, IpOf, Placed, FakeTransport;
    IpPart(f, mode, p, o, t);
    UdpPresence(f, mode, p, o, t);
    hide Rebuilt;
    FakeEnd(p, o, |g.bytes|);
    TransportRebuilt(g.bytes, n, p, o, TransportBytes(p) + t.len, ChecksumOf(f, p, o.reverse, t));
  }

  /** Every layer of the fake, as the parser reads it back. */
  lemma {:induction false} RebuiltLayers(f: Frame, mode: Mode, y: Layers, p: Packet, o: Order, t: Template)
    requires LayersOf(f, mode) == Success(y) && Bounded(f, mode, p) && 0 < t.len <= PAYLOAD_MAX
    requires Assembled(p, y, o.reverse)
    ensures LayersOf(Rebuilt(f, mode, p, o, t), mode) == Success(FakeLayers(f, mode, y, p, o, t))
  {
    hide LinkOf, NetworkOf, TransportOf, LayersOf, ChecksumOf, MacsSent, IpOf, EthernetOf, TransportHeader;
    hide Assembled, Placed, FakeNetwork, FakeTransport;
    var g := Rebuilt(f, mode, p, o, t);
    AssembledFacts(f, mode, y, p, o.reverse);
    IpPart(f, mode, p, o, t);
    EtherPart(f, mode, p, o, t);
    hide Rebuilt;
    RebuiltLink(f, mode, y.link, p, o, t);
    var m := FakeLayers(f, mode, y, p, o, t);
    RebuiltNetwork(f, g, mode, y, p, o, t);
    EthIgnored(g.bytes, y.link.(envelope := |g.bytes|), m.link, mode);
    RebuiltTransport(f, g, mode, p, o, t, m.network);
    LayersFrom(g, mode, m);
  }

  lemma FakeEnd(p: Packet, o: Order, end: nat)
    ensures FakeNetwork(p, o, end).l4 == p.l3 + HeaderBytes(p)
  {
  }

  lemma {:induction false} EthIgnored(b: seq<byte>, l: Link, m: Link, mode: Mode)
    requires m == l.(eth := m.eth)
    ensures NetworkOf(b, m, mode) == NetworkOf(b, l, mode)
  {
  }

  lemma {:induction false} UdpPresence(f: Frame, mode: Mode, p: Packet, o: Order, t: Template)
    requires Bounded(f, mode, p) && t.len <= PAYLOAD_MAX
    ensures p.key.protocol == 17 && p.key.family == 6 ==> ChecksumOf(f, p, o.reverse, t) != 0
  {
    if p.key.protocol == 17 {
      UdpChecksumPresent(f, mode, p, o.reverse, t);
    }
  }

  lemma {:induction false} TransportRebuilt(b: seq<byte>, n: Network, p: Packet, o: Order, transport: nat,
        checksum: u16)
    requires n == FakeNetwork(p, o, |b|) && |b| == n.l4 + transport && TransportBytes(p) < transport < U16
    requires p.key.protocol == 6 || p.key.protocol == 17
    requires Placed(b, n.l4, TransportHeader(p, o.reverse, transport, checksum))
    requires p.key.protocol == 17 && p.key.family == 6 ==> checksum != 0
    ensures TransportOf(b, n, |b|) == Success(FakeTransport(p, o, checksum))
  {
    hide TcpOf, UdpOf;
    if p.key.protocol == 6 {
      TcpRebuilt(b, n.l4, p, o, transport, checksum);
    } else {
      UdpRebuilt(b, n, p, o, transport, checksum);
    }
  }

  /** The fake packet that belongs to `p`: same flow, other contents. */
  predicate FakeOf(q: Packet, p: Packet, wan: u32, o: Order, payload: nat, end: nat) {
    && q.key == p.key.(ifindex := wan)
    && q.bytes == payload && q.end == end && q.l3 == p.l3 && q.ttl == o.ttl % 256
    && !q.firstFragment && !q.fragmentHeader
    && (p.key.protocol == 6 ==>
          && q.flags == 0x18 && q.hlen == 20
          && (if o.reverse then q.ack else q.seqno) == (p.seqno + 1) % U32
          && (if o.reverse then q.seqno else q.ack) == p.ack)
  }

  lemma {:induction false} FakeAssembles(y: Layers, p: Packet, mode: Mode, iface: Interface, wan: u32, o: Order,
        z: Layers, payload: nat)
    requires |y.link.eth| == 14 && y.network.l4 + y.transport.hlen <= y.network.end && Assembled(p, y, o.reverse)
    requires y.link.session != 0 ==> mode != L3
    requires p.key.generation == iface.generation && (p.key.protocol == 6 || p.key.protocol == 17)
    requires z.link == y.link.(envelope := z.link.envelope,
                               eth := if mode == L3 then y.link.eth else MacsSent(y.link.eth, o.reverse))
    requires z.network == FakeNetwork(p, o, p.l3 + HeaderBytes(p) + TransportBytes(p) + payload)
    requires z.transport == FakeTransport(p, o, z.transport.checksum)
    ensures |z.link.eth| == 14
    ensures FakeOf(Assemble(wan, iface, false, z), p, wan, o, payload, z.network.end)
  {
    MacsLocal(y.link.eth, o.reverse);
    hide MacsSent;
  }

  /**
   Building and then parsing as an egress frame of the same interface: the fake is
   in the flow of the original, with the whole template as its payload, the TTL that
   was ordered, and nothing of the original's fragmentation. One of its sequence
   numbers acknowledges the original's, the other is the original's acknowledgement.
   */
  lemma {:induction false} BuildThenParse(f: Frame, ifindex: u32, wan: u32, iface: Interface, o: Order, t: Template)
    requires Parsed(f, ifindex, iface, o.reverse).Success? && 0 < t.len <= PAYLOAD_MAX
    ensures var (p, g) := (Parsed(f, ifindex, iface, o.reverse).value, Built(f, ifindex, iface, o, t));
            var r := Parsed(g, wan, iface, false);
            && r.Success? && FakeOf(r.value, p, wan, o, t.len, |g.bytes|)
            && |g.bytes| >= t.len && g.bytes[|g.bytes| - t.len..] == t.data[..t.len]
  {
    hide LayersOf, Rebuilt, ChecksumOf, MacsSent, IpOf, TransportHeader, FakeNetwork, FakeTransport, Placed, FakeOf,
        Bounded, Assemble;
    ParsedBounds(f, ifindex, iface, o.reverse);
    var p := Parsed(f, ifindex, iface, o.reverse).value;
    var y := LayersOf(f, iface.mode).value;
    ParsedAssembled(f, ifindex, iface, o.reverse);
    RebuiltLayers(f, iface.mode, y, p, o, t);
    IpPart(f, iface.mode, p, o, t);
    PayloadPart(f, iface.mode, p, o, t);
    var z := FakeLayers(f, iface.mode, y, p, o, t);
    FakeChecksum(p, o, ChecksumOf(f, p, o.reverse, t));
    NetworkEnd(p, o, z.network.end, |Rebuilt(f, iface.mode, p, o, t).bytes|, z.network);
    FakeAssembles(y, p, iface.mode, iface, wan, o, z, t.len);
  }

  lemma {:induction false} ParsedAssembled(f: Frame, ifindex: u32, iface: Interface, ingress: bool)
    requires Parsed(f, ifindex, iface, ingress).Success?
    ensures LayersOf(f, iface.mode).Success?
    ensures var (p, y) := (Parsed(f, ifindex, iface, ingress).value, LayersOf(f, iface.mode).value);
            && Assembled(p, y, ingress) && p.key.generation == iface.generation
            && (y.link.session != 0 ==> iface.mode != L3) && (p.key.protocol == 6 || p.key.protocol == 17)
  {
    ParsedBounds(f, ifindex, iface, ingress);
    hide LayersOf;
  }

  lemma FakeChecksum(p: Packet, o: Order, checksum: u16)
    ensures FakeTransport(p, o, checksum).checksum == checksum
  {
  }

  lemma NetworkEnd(p: Packet, o: Order, end: nat, total: nat, n: Network)
    requires n == FakeNetwork(p, o, total) && end == n.end
    ensures end == total
  {
  }

  lemma {:induction false} PayloadPart(f: Frame, mode: Mode, p: Packet, o: Order, t: Template)
    requires Bounded(f, mode, p) && t.len <= PAYLOAD_MAX
    ensures var b := Rebuilt(f, mode, p, o, t).bytes; |b| >= t.len && b[|b| - t.len..] == t.data[..t.len]
  {
    hide EthernetOf, IpOf, TransportHeader, ChecksumOf;
  }

  /** The fake is sent to the MAC address that the flow's other end has. */
  lemma {:induction false} MacsLocal(eth: seq<byte>, reverse: bool)
    requires |eth| == 14
    ensures |MacsSent(eth, reverse)| == 14
    ensures MacsSent(eth, reverse)[0..6] == if reverse then eth[6..12] else eth[0..6]
  {
  }
}
