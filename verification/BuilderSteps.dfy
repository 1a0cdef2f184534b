/** The builder as it runs on a socket buffer: every step writes into scratch buffers or the packet. */
module BuilderSteps {
  import opened Bytes
  import opened Common
  import opened Checksum
  import opened Packets
  import opened Abi
  import opened Builder
  import opened SocketBuffer

  // ---------- sums ----------

  /** 64 blocks of 64 zero-padded bytes cover every packet the parser accepts. */
  method SumOriginal(b: seq<byte>, l4: nat, end: nat) returns (sum: u32)
    requires l4 <= end <= |b| <= 4096
    ensures Fold(sum) == Fold(WordSum(b[l4..end]))
  {
    sum := 0;
    var data := b[l4..end];
    var i := 0;
    while i < 64 && i * 64 < |data|
      invariant 0 <= i <= 64 && (i * 64 < |data| + 64)
      invariant Fold(sum) == Fold(WordSum(data[..Min(i * 64, |data|)]))
    {
      var n := Min(64, |data| - i * 64);
      var chunk := data[i * 64..i * 64 + n];
      var block := chunk + Zeros(64 - n);
      ghost var before := sum;
      sum := CsumDiff([], block, sum);
      SumStep(data, i * 64, n, chunk, before, sum);
      i := i + 1;
    }
    assert data[..|data|] == data;
  }

  lemma {:induction false} SumStep(data: seq<byte>, at: nat, n: nat, chunk: seq<byte>, before: u32, sum: u32)
    requires at % 2 == 0 && at + n <= |data| && n <= 64 && chunk == data[at..at + n]
    requires Fold(before) == Fold(WordSum(data[..at]))
    requires Fold(sum) == Fold(before + WordSum(Complement([])) + WordSum(chunk + Zeros(64 - n)))
    ensures Fold(sum) == Fold(WordSum(data[..at + n]))
  {
    WordSumPadded(chunk, 64 - n);
    assert data[..at + n] == data[..at] + chunk;
    WordSumConcat(data[..at], chunk);
    FoldAdd(before, WordSum(data[..at]), WordSum(chunk));
  }

  /** The payload in 80-byte chunks: the template is zero beyond its length. */
  method SumPayload(t: Template, seed: u32, ghost header: seq<byte>) returns (sum: u32)
    requires 0 < t.len <= PAYLOAD_MAX
    requires Fold(seed) == Fold(WordSum(header))
    ensures Fold(sum) == Fold(WordSum(header) + WordSum(t.data[..t.len]))
  {
    hide Fold, WordSum, Complement;
    sum := seed;
    assert t.data[..0] == [] && WordSum([]) == 0 by { WordSumZeros(0); assert Zeros(0) == []; }
    var i := 0;
    while i < 15 && i * 80 < t.len
      invariant 0 <= i <= 15 && i * 80 < t.len + 80
      invariant Fold(sum) == Fold(WordSum(header) + WordSum(t.data[..i * 80]))
    {
      var chunk := t.data[i * 80..i * 80 + 80];
      ghost var before := sum;
      sum := CsumDiff([], chunk, sum);
      ChunkStep(WordSum(header), t.data, i * 80, chunk, before, sum);
      i := i + 1;
    }
    ZeroTail(t, i * 80);
  }

  lemma {:induction false} ChunkStep(header: nat, data: seq<byte>, at: nat, chunk: seq<byte>, before: u32, sum: u32)
    requires at % 2 == 0 && at + |chunk| <= |data| && chunk == data[at..at + |chunk|]
    requires Fold(before) == Fold(header + WordSum(data[..at]))
    requires Fold(sum) == Fold(before + WordSum(Complement([])) + WordSum(chunk))
    ensures Fold(sum) == Fold(header + WordSum(data[..at + |chunk|]))
  {
    hide Fold;
    assert data[..at + |chunk|] == data[..at] + chunk;
    WordSumConcat(data[..at], chunk);
    FoldAdd(before, header + WordSum(data[..at]), WordSum(chunk));
  }

  lemma {:induction false} ZeroTail(t: Template, n: nat)
    requires t.len <= n <= PAYLOAD_MAX
    ensures WordSum(t.data[..n]) == WordSum(t.data[..t.len])
  {
    assert t.data[..n] == t.data[..t.len] + t.data[t.len..][..n - t.len];
    assert t.data[t.len..][..n - t.len] == Zeros(n - t.len);
    WordSumPadded(t.data[..t.len], n - t.len);
  }

  // ---------- scratch buffers ----------

  method FillEthernet(eth: array<byte>, p: Packet, reverse: bool, total: nat)
    requires eth.Length == 32 && |p.eth| == 14 && (p.key.session != 0 ==> 4 <= p.l3 <= 30)
    modifies eth
    ensures eth[..] == EthernetOf(old(eth[..]), p, reverse, total)
  {
    if reverse && p.l3 > 0 {
      CopyInto(eth, 0, p.eth[6..12]);
      CopyInto(eth, 6, p.eth[0..6]);
    }
    if p.key.session != 0 {
      Write16(eth, p.l3 - 4, total + 2);
    }
  }

  method FillIpv4(ip: array<byte>, p: Packet, ttl: u32, total: nat)
    requires ip.Length == 40 && ip[20..] == Zeros(20) && |p.key.local| == |p.key.remote| == 4
    modifies ip
    ensures ip[..20] == RewriteIpv4(old(ip[..20]), p, ttl, total)
  {
    hide Fold, FoldChecksum, Ipv4Header;
    ghost var head := ip[..20];
    assert ip[..] == head + Zeros(20);
    BlankIpv4(ip, p, ttl, total);
    ghost var blank := Ipv4Header(head, p, ttl, total);
    Ipv4HeaderPrefix(head, p, ttl, total);
    assert ip[..] == blank + Zeros(20);
    var sum := CsumDiff([], ip[..], 0);
    Ipv4Sum(blank, sum);
    Write16(ip, 10, FoldChecksum(sum));
    assert ip[..20] == Splice(blank, 10, Be16(FoldChecksum(sum)));
  }

  lemma {:induction false} Ipv4Sum(blank: seq<byte>, sum: u32)
    requires |blank| == 20 && Fold(sum) == Fold(0 + WordSum(Complement([])) + WordSum(blank + Zeros(20)))
    ensures FoldChecksum(sum) == 0xffff - Fold(WordSum(blank))
  {
    WordSumPadded(blank, 20);
    FoldChecksumComplements(sum);
  }

  method BlankIpv4(ip: array<byte>, p: Packet, ttl: u32, total: nat)
    requires ip.Length >= 20 && |p.key.local| == |p.key.remote| == 4
    modifies ip
    ensures ip[..] == Ipv4Header(old(ip[..]), p, ttl, total)
  {
    CopyInto(ip, 12, p.key.local);
    CopyInto(ip, 16, p.key.remote);
    if p.firstFragment {
      Write16(ip, 6, 0);
    }
    Write16(ip, 2, total);
    CopyInto(ip, 8, [ttl % 256]);
    CopyInto(ip, 10, [0, 0]);
  }

  lemma {:induction false} Ipv4HeaderPrefix(head: seq<byte>, p: Packet, ttl: u32, total: nat)
    requires |head| == 20 && |p.key.local| == |p.key.remote| == 4
    ensures Ipv4Header(head + Zeros(20), p, ttl, total) == Ipv4Header(head, p, ttl, total) + Zeros(20)
  {
  }

  method FillIpv6(ip: array<byte>, p: Packet, ttl: u32, transport: nat)
    requires ip.Length == 40 && |p.key.local| == |p.key.remote| == 16
    modifies ip
    ensures ip[..] == RewriteIpv6(old(ip[..]), p, ttl, transport)
  {
    CopyInto(ip, 8, p.key.local);
    CopyInto(ip, 24, p.key.remote);
    Write16(ip, 4, transport);
    ip[7] := ttl % 256;
    if p.fragmentHeader {
      ip[6] := 17;
    }
  }

  method FillTransport(th: array<byte>, p: Packet, reverse: bool, transport: nat)
    requires th.Length == 20 && th[..] == Zeros(20) && p.key.protocol in {6, 17}
    modifies th
    ensures th[..] == Seeded(p, reverse, transport)
  {
    hide Splice, Be16, Be32, Zeros;
    var next := (p.seqno + 1) % U32;
    Write16(th, 0, p.key.localPort);
    Write16(th, 2, p.key.remotePort);
    if p.key.protocol == 6 {
      Write32(th, 4, if reverse then p.ack else next);
      Write32(th, 8, if reverse then next else p.ack);
      CopyInto(th, 12, [0x50, 0x18]);
      Write16(th, 14, 128);
      Write16(th, 16, p.checksum);
      TcpLayout(Be16(p.key.localPort), Be16(p.key.remotePort), Be32(if reverse then p.ack else next),
                Be32(if reverse then next else p.ack), [0x50, 0x18], Be16(128), Be16(p.checksum));
    } else {
      Write16(th, 4, transport);
      Write16(th, 6, if Fresh(p) then 0 else p.checksum);
      UdpLayout(Be16(p.key.localPort), Be16(p.key.remotePort), Be16(transport),
                Be16(if Fresh(p) then 0 else p.checksum));
    }
  }

  lemma {:induction false} TcpLayout(a: seq<byte>, b: seq<byte>, c: seq<byte>, d: seq<byte>, e: seq<byte>,
        f: seq<byte>, g: seq<byte>)
    requires |a| == |b| == |e| == |f| == |g| == 2 && |c| == |d| == 4
    ensures Splice(Splice(Splice(Splice(Splice(Splice(Splice(Zeros(20), 0, a), 2, b), 4, c), 8, d), 12, e), 14, f),
        16, g)
            == a + b + c + d + e + f + g + [0, 0]
  {
  }

  lemma {:induction false} UdpLayout(a: seq<byte>, b: seq<byte>, c: seq<byte>, d: seq<byte>)
    requires |a| == |b| == |c| == |d| == 2
    ensures Splice(Splice(Splice(Splice(Zeros(20), 0, a), 2, b), 4, c), 6, d) == a + b + c + d + Zeros(12)
  {
  }

  // ---------- the whole build ----------

  /** The builder's 64-bit difference of two sums, folded once: it fits 32 bits. */
  function Delta(before: u32, after: u32): u32 {
    var d := (U32 - 1 - before) + after;
    d % U32 + d / U32
  }

  lemma {:induction false} DeltaCongruent(before: u32, after: u32)
    ensures Congruent(Delta(before, after), (U32 - 1 - before) + after)
    ensures Congruent(U32 - 1, 0xffff)
    ensures after > 0 ==> Delta(before, after) > 0
  {
    var d := (U32 - 1 - before) + after;
    assert Delta(before, after) == d || Delta(before, after) == d - (U32 - 1);
  }

  lemma {:induction false} DeltaFolds(before: nat, after: nat, oldsum: u32, newsum: u32)
    requires Fold(oldsum) == Fold(before) && Fold(newsum) == Fold(after) && after > 0
    ensures Fold(Delta(oldsum, newsum)) == Fold(0xffff - Fold(before) + after)
  {
    hide Congruent, Fold, Delta;
    var d := (U32 - 1 - oldsum) + newsum;
    DeltaCongruent(oldsum, newsum);
    FoldResidue(oldsum);
    FoldResidue(newsum);
    FoldResidue(Delta(oldsum, newsum));
    var n := 0xffff - Fold(before) + after;
    CongruentTrans(oldsum, Fold(oldsum), Fold(before));
    CongruentSum(U32 - 1, 0xffff, oldsum, Fold(before));
    CongruentTrans(newsum, Fold(newsum), after);
    CongruentSum(U32 - 1 - oldsum, 0xffff - Fold(before), newsum, after);
    CongruentTrans(Delta(oldsum, newsum), d, n);
    CongruentTrans(Fold(Delta(oldsum, newsum)), Delta(oldsum, newsum), n);
    FoldUnique(n, Fold(Delta(oldsum, newsum)));
  }

  lemma {:induction false} SeededPositive(p: Packet, reverse: bool, transport: nat)
    requires 0 < transport < 0x1_0000 && p.key.protocol in {6, 17}
    ensures WordSum(Seeded(p, reverse, transport)) > 0
  {
    var s := Seeded(p, reverse, transport);
    if p.key.protocol == 6 {
      WordSumSplit(s, 12);
      assert s[12..][0] == 0x50;
    } else {
      WordSumSplit(s, 4);
      assert s[4..][0] == transport / 256 % 256 && s[4..][1] == transport % 256;
    }
  }

  /** A packet of four layers with one word of its third layer replaced. */
  lemma {:induction false} FieldRewritten(e: seq<byte>, i: seq<byte>, t: seq<byte>, d: seq<byte>, at: nat,
        word: seq<byte>)
    requires at + 2 <= |t| && |word| == 2
    ensures Splice(e + i + t + d, |e| + |i| + at, word) == e + i + Splice(t, at, word) + d
    ensures Read16(e + i + t + d, |e| + |i| + at) == Read16(t, at)
  {
  }

  lemma {:induction false} SpliceTwice(t: seq<byte>, at: nat, a: seq<byte>, b: seq<byte>)
    requires at + 2 <= |t| && |a| == |b| == 2
    ensures Splice(Splice(t, at, a), at, b) == Splice(t, at, b)
    ensures Read16(Splice(t, at, a), at) == Read16(a, 0)
  {
  }

  lemma {:induction false} StoreStep(eth: seq<byte>, b: seq<byte>, off: nat, n: nat)
    requires off + n <= |eth| && off + n <= |b|
    ensures Splice(eth[..off] + b[off..], off, eth[off..off + n]) == eth[..off + n] + b[off + n..]
  {
  }

  /** The link layer goes back in one 14-byte piece and 4-byte pieces. */
  method StoreLink(skb: Skb, eth: seq<byte>, l3: nat)
    requires |eth| == 32 && l3 in {0, 14, 18, 22, 26, 30} && l3 <= |skb.bytes|
    modifies skb`bytes
    ensures skb.bytes == eth[..l3] + old(skb.bytes)[l3..]
  {
    hide Splice;
    ghost var b := skb.bytes;
    assert b == eth[..0] + b[0..];
    if l3 > 0 {
      StoreStep(eth, b, 0, 14);
      assert eth[0..14] == eth[..14];
      var ok := skb.Store(0, eth[..14]);
      var off := 14;
      while off < 30
        invariant off in {14, 18, 22, 26, 30}
        invariant skb.bytes == eth[..Min(off, l3)] + b[Min(off, l3)..]
      {
        if l3 >= off + 4 {
          StoreStep(eth, b, off, 4);
          ok := skb.Store(off, eth[off..off + 4]);
        }
        off := off + 4;
      }
    }
  }

  method StoreLayers(skb: Skb, eth: seq<byte>, l3: nat, ip: seq<byte>, th: seq<byte>, payload: seq<byte>)
    requires |eth| == 32 && l3 in {0, 14, 18, 22, 26, 30}
    requires |skb.bytes| == l3 + |ip| + |th| + |payload|
    modifies skb`bytes
    ensures skb.bytes == eth[..l3] + ip + th + payload
  {
    StoreLink(skb, eth, l3);
    var ok := skb.Store(l3, ip);
    ok := skb.Store(l3 + |ip|, th);
    ok := skb.Store(l3 + |ip| + |th|, payload);
  }

  /** The sum of the pseudo-header, assembled from the rewritten addresses. */
  method SumPseudo(p: Packet, addresses: seq<byte>, transport: nat) returns (sum: u32)
    requires p.key.family in {4, 6} && |p.key.local| == |p.key.remote| == (if p.key.family == 4 then 4 else 16)
    requires addresses == p.key.local + p.key.remote
    ensures Fold(sum) == Fold(WordSum(PseudoHeader(p.key.local, p.key.remote, p.key.family, 17, transport)))
  {
    assert Complement([]) == [];
    if p.key.family == 4 {
      sum := CsumDiff([], addresses + ([0, 17] + Be16(transport)), 0);
    } else {
      sum := CsumDiff([], addresses + (Be32(transport) + [0, 0, 0, 17]), 0);
    }
  }

  /** Both updates of a checksum that starts from the old field. */
  method UpdateIncrementally(skb: Skb, at: nat, p: Packet, delta: u32, transport: u32, ghost before: nat,
        ghost after: nat)
    requires at + 2 <= |skb.bytes| && p.l4 <= p.end < U32
    requires Read16(skb.bytes, at) == p.checksum
    requires Fold(delta) == Fold(0xffff - Fold(before) + after)
    modifies skb`bytes
    ensures skb.bytes == Splice(old(skb.bytes), at, Be16(Incremental(p, before, after, transport)))
  {
    hide Splice, Mangled, ReplaceByDiff, Replace4, Fold;
    var udp := p.key.protocol == 17;
    ghost var b := skb.bytes;
    ReplaceByDiffDepends(p.checksum, delta, Fold(0xffff - Fold(before) + after));
    skb.ReplaceDiff(at, delta, udp);
    ghost var first := Mangled(udp, p.checksum, ReplaceByDiff(p.checksum, delta));
    SpliceTwice(b, at, Be16(first), Be16(Incremental(p, before, after, transport)));
    Be16Reads(first);
    skb.ReplaceFour(at, p.end - p.l4, transport, udp);
  }

  /** Both updates of a checksum that starts from one's-complement zero. */
  method UpdateFromNothing(skb: Skb, at: nat, data: u32, pseudo: u32, ghost dataSum: nat, ghost pseudoSum: nat)
    requires at + 2 <= |skb.bytes| && Read16(skb.bytes, at) == 0xffff
    requires Fold(data) == Fold(dataSum) && Fold(pseudo) == Fold(pseudoSum)
    modifies skb`bytes
    ensures skb.bytes == Splice(old(skb.bytes), at, Be16(FromNothing(dataSum, pseudoSum)))
  {
    hide Splice, Mangled, ReplaceByDiff, Fold;
    ghost var b := skb.bytes;
    ReplaceByDiffDepends(0xffff, data, Fold(dataSum));
    skb.ReplaceDiff(at, data, true);
    ghost var first := Mangled(true, 0xffff, ReplaceByDiff(0xffff, data));
    SpliceTwice(b, at, Be16(first), Be16(FromNothing(dataSum, pseudoSum)));
    Be16Reads(first);
    ReplaceByDiffDepends(first, pseudo, Fold(pseudoSum));
    skb.ReplaceDiff(at, pseudo, true);
  }

  method FillIp(ip: array<byte>, p: Packet, head: seq<byte>, ttl: u32, transport: nat)
    requires p.key.family in {4, 6} && |head| == HeaderBytes(p)
    requires ip.Length == 40 && ip[..] == head + Zeros(40 - |head|)
    requires |p.key.local| == |p.key.remote| == (if p.key.family == 4 then 4 else 16)
    modifies ip
    ensures ip[..HeaderBytes(p)] == IpOf(head, p, ttl, transport)
  {
    assert ip[..HeaderBytes(p)] == head;
    if p.key.family == 4 {
      assert ip[20..] == Zeros(20);
      FillIpv4(ip, p, ttl, 20 + transport);
    } else {
      assert ip[..] == head;
      FillIpv6(ip, p, ttl, transport);
      assert ip[..40] == ip[..];
    }
  }

  /** Loads 32 bytes although at most 30 are written back: every accepted frame is longer. */
  lemma {:induction false} EthernetPrefix(b: seq<byte>, mode: Mode, p: Packet, reverse: bool, total: nat)
    requires p.l3 > 0 && p.l3 <= 32 <= |b| && Bounded(Frame(b, None, false), mode, p)
    ensures EthernetOf(b[..32], p, reverse, total)[..p.l3] == EthernetOf(b[..p.l3], p, reverse, total)
  {
  }

  method RewriteLink(b: seq<byte>, mode: Mode, p: Packet, reverse: bool, total: nat) returns (eth: seq<byte>)
    requires Bounded(Frame(b, None, false), mode, p)
    ensures |eth| == 32 && eth[..p.l3] == EthernetOf(b[..p.l3], p, reverse, total)
  {
    var buffer := new byte[32](_ => 0);
    if p.l3 > 0 {
      CopyInto(buffer, 0, b[..32]);
      assert buffer[..] == b[..32];
      EthernetPrefix(b, mode, p, reverse, total);
    }
    FillEthernet(buffer, p, reverse, total);
    eth := buffer[..];
  }

  method RewriteHeaders(b: seq<byte>, mode: Mode, p: Packet, o: Order, transport: nat)
    returns (eth: seq<byte>, ip: seq<byte>, seeded: seq<byte>)
    requires Bounded(Frame(b, None, false), mode, p)
    ensures |eth| == 32 && eth[..p.l3] == EthernetOf(b[..p.l3], p, o.reverse, HeaderBytes(p) + transport)
    ensures ip == IpOf(b[p.l3..p.l3 + HeaderBytes(p)], p, o.ttl, transport)
    ensures seeded == Seeded(p, o.reverse, transport)
  {
    hide EthernetOf, IpOf, Seeded;
    var iplen := HeaderBytes(p);
    eth := RewriteLink(b, mode, p, o.reverse, iplen + transport);
    var header := new byte[40](_ => 0);
    CopyInto(header, 0, b[p.l3..p.l3 + iplen]);
    assert header[..] == b[p.l3..p.l3 + iplen] + Zeros(40 - iplen);
    FillIp(header, p, b[p.l3..p.l3 + iplen], o.ttl, transport);
    ip := header[..iplen];
    var th := new byte[20](_ => 0);
    assert th[..] == Zeros(20);
    FillTransport(th, p, o.reverse, transport);
    seeded := th[..];
  }

  function DataSum(p: Packet, reverse: bool, t: Template): nat
    requires t.len <= PAYLOAD_MAX
  {
    WordSum(Seeded(p, reverse, TransportBytes(p) + t.len)) + WordSum(t.data[..t.len])
  }

  function PseudoSum(p: Packet, t: Template): nat {
    WordSum(PseudoHeader(p.key.local, p.key.remote, p.key.family, 17, TransportBytes(p) + t.len))
  }

  /** The sums the checksum helper is given. */
  method Sums(b: seq<byte>, mode: Mode, p: Packet, reverse: bool, t: Template, seeded: seq<byte>)
    returns (delta: u32, pseudo: u32)
    requires Bounded(Frame(b, None, false), mode, p) && 0 < t.len <= PAYLOAD_MAX
    requires seeded == Seeded(p, reverse, TransportBytes(p) + t.len)
    ensures Fresh(p) ==> Fold(delta) == Fold(DataSum(p, reverse, t)) && Fold(pseudo) == Fold(PseudoSum(p, t))
    ensures !Fresh(p) ==> Fold(delta) == Fold(0xffff - Fold(WordSum(b[p.l4..p.end])) + DataSum(p, reverse, t))
  {
    var transport := TransportBytes(p) + t.len;
    hide Fold, Seeded, PseudoHeader;
    assert Complement([]) == [];
    var newsum := CsumDiff([], seeded, 0);
    newsum := SumPayload(t, newsum, seeded);
    pseudo := 0;
    if Fresh(p) {
      pseudo := SumPseudo(p, p.key.local + p.key.remote, transport);
      delta := newsum;
    } else {
      var oldsum := SumOriginal(b, p.l4, p.end);
      SeededPositive(p, reverse, transport);
      DeltaFolds(WordSum(b[p.l4..p.end]), DataSum(p, reverse, t), oldsum, newsum);
      delta := Delta(oldsum, newsum);
    }
  }

  method FixChecksum(skb: Skb, at: nat, f: Frame, mode: Mode, p: Packet, reverse: bool, t: Template, delta: u32,
        pseudo: u32)
    requires Bounded(f, mode, p) && 0 < t.len <= PAYLOAD_MAX && at + 2 <= |skb.bytes|
    requires Read16(skb.bytes, at) == if Fresh(p) then 0xffff else p.checksum
    requires Fresh(p) ==> Fold(delta) == Fold(DataSum(p, reverse, t)) && Fold(pseudo) == Fold(PseudoSum(p, t))
    requires !Fresh(p) ==> Fold(delta) == Fold(0xffff - Fold(WordSum(f.bytes[p.l4..p.end])) + DataSum(p, reverse, t))
    modifies skb`bytes
    ensures skb.bytes == Splice(old(skb.bytes), at, Be16(ChecksumOf(f, p, reverse, t)))
  {
    hide Splice, Fold, Seeded, PseudoHeader, Incremental, FromNothing;
    if Fresh(p) {
      UpdateFromNothing(skb, at, delta, pseudo, DataSum(p, reverse, t), PseudoSum(p, t));
    } else {
      UpdateIncrementally(skb, at, p, delta, TransportBytes(p) + t.len, WordSum(f.bytes[p.l4..p.end]),
          DataSum(p, reverse, t));
    }
  }

  /** Everything after the checks: compute, resize, store, fix the checksum. */
  method Rewrite(skb: Skb, mode: Mode, p: Packet, o: Order, t: Template, fault: bool) returns (ok: bool)
    requires Bounded(skb.View(), mode, p) && 0 < t.len <= PAYLOAD_MAX
    modifies skb`bytes
    ensures ok == !fault
    ensures skb.View() == if ok then Rebuilt(old(skb.View()), mode, p, o, t) else old(skb.View())
  {
    hide EthernetOf, IpOf, Seeded, Fold, Splice, PseudoHeader, ChecksumOf, WordSum, DataSum, PseudoSum, TransportHeader;
    hide Be16, Read16;
    var f := skb.View();
    var iplen, thlen := HeaderBytes(p), TransportBytes(p);
    var transport := thlen + t.len;
    var eth, ip, seeded := RewriteHeaders(f.bytes, mode, p, o, transport);
    var delta, pseudo := Sums(f.bytes, mode, p, o.reverse, t, seeded);
    var stored := (if Fresh(p) then Splice(seeded, 6, [0xff, 0xff]) else seeded)[..thlen];
    ok := skb.ChangeTail(p.l3 + iplen + transport, fault);
    if !ok { return; }
    StoreLayers(skb, eth, p.l3, ip, stored, t.data[..t.len]);
    ghost var check := ChecksumOf(f, p, o.reverse, t);
    StoredField(p, o.reverse, transport, stored, check);
    FieldRewritten(eth[..p.l3], ip, stored, t.data[..t.len], FieldAt(p), Be16(check));
    FixChecksum(skb, p.l3 + iplen + FieldAt(p), f, mode, p, o.reverse, t, delta, pseudo);
  }

  /** The header as stored: its checksum field is the seed of the update that follows. */
  lemma {:induction false} StoredField(p: Packet, reverse: bool, transport: nat, stored: seq<byte>, check: u16)
    requires p.key.protocol in {6, 17} && (Fresh(p) ==> p.key.protocol == 17)
    requires var s := Seeded(p, reverse, transport);
             stored == (if Fresh(p) then Splice(s, 6, [0xff, 0xff]) else s)[..TransportBytes(p)]
    ensures Read16(stored, FieldAt(p)) == if Fresh(p) then 0xffff else p.checksum
    ensures Splice(stored, FieldAt(p), Be16(check)) == TransportHeader(p, reverse, transport, check)
  {
    var s := Seeded(p, reverse, transport);
    if Fresh(p) {
      assert stored == Splice(s[..8], 6, [0xff, 0xff]);
      SpliceTwice(s[..8], 6, [0xff, 0xff], Be16(check));
    } else {
      Be16Reads(p.checksum);
      assert stored[FieldAt(p)] == Be16(p.checksum)[0] && stored[FieldAt(p) + 1] == Be16(p.checksum)[1];
    }
  }

  /**
   The builder program's `build`: it succeeds exactly on the packets that can be
   built, and leaves exactly the rebuilt frame. A clone it fails on is dropped.
   */
  method Build(skb: Skb, ifindex: u32, iface: Interface, o: Order, templates: map<u32, Template>, fault: bool)
    returns (ok: bool)
    modifies skb`bytes
    ensures ok <==> Buildable(old(skb.View()), ifindex, iface, o, templates) && !fault
    ensures skb.View() == if ok then Built(old(skb.View()), ifindex, iface, o, templates[Wanted(o)])
        else old(skb.View())
  {
    var f := skb.View();
    var parsed := Parse(f, ifindex, iface, o.reverse);
    if parsed.Failure? { return false; }
    var p := parsed.value;
    ParsedBounds(f, ifindex, iface, o.reverse);
    var wanted := TemplateKey(o.gen, PickedPlan(o.pick), PickedVariant(o.pick));
    if wanted !in templates || p.l3 > 30 { return false; }
    var t := templates[wanted];
    if t.len == 0 || t.len > PAYLOAD_MAX { return false; }
    if HeaderBytes(p) + TransportBytes(p) + t.len > iface.mtu { return false; }
    ok := Rewrite(skb, iface.mode, p, o, t, fault);
  }
}
