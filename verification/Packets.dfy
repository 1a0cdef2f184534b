/** Frames, flow keys and the bounded parser (ebpf/bpf/parse.h). */
module Packets {
  import opened Bytes
  import opened Common

  datatype Mode = Ethernet | L3 | Pppoe

  datatype Interface = Interface(generation: u32, slot: u32, mode: Mode, mtu: u32, builder: u32)

  datatype Tag = Tag(tci: u16, proto: u16)

  /** `offload` is a VLAN tag the driver has already taken out of the bytes. */
  datatype Frame = Frame(bytes: seq<byte>, offload: Option<Tag>, gso: bool)

  /** The counter that a refused frame is charged to. */
  datatype Reject = Gso | Length | Layout | Truncated | Ipv4Options | Fragment | IpVersion | Protocol

  datatype Key = Key(ifindex: u32, generation: u32, local: seq<byte>, remote: seq<byte>,
                     localPort: u16, remotePort: u16, tags: seq<Tag>, session: u16,
                     peer: seq<byte>, family: nat, protocol: byte)

  datatype Packet = Packet(key: Key, l3: nat, l4: nat, end: nat, hlen: nat, bytes: nat, seqno: u32, ack: u32,
                           checksum: u16, ttl: byte, flags: byte, firstFragment: bool,
                           fragmentHeader: bool, eth: seq<byte>)

  datatype Result<+T> = Success(value: T) | Failure(reason: Reject) {
    predicate IsFailure() { Failure? }
    function PropagateFailure<U>(): Result<U>
      requires Failure?
    {
      Failure(reason)
    }
    function Extract(): T
      requires Success?
    {
      value
    }
  }

  /** Link layer: where the IP header starts, what announced it, and where the payload must end. */
  datatype Link = Link(l3: nat, proto: u16, envelope: nat, tags: seq<Tag>, session: u16, eth: seq<byte>)

  datatype Network = Network(family: nat, protocol: byte, ttl: byte, l4: nat, end: nat, source: seq<byte>,
                             destination: seq<byte>, firstFragment: bool, fragmentHeader: bool)

  datatype Transport = Transport(hlen: nat, seqno: u32, ack: u32, flags: byte, checksum: u16,
                                 sourcePort: u16, destinationPort: u16)

  datatype Tagged = Tagged(off: nat, proto: u16, tags: seq<Tag>)

  predicate IsVlan(proto: u16) {
    proto == 0x8100 || proto == 0x88a8
  }

  function TagRun(b: seq<byte>, off: nat, proto: u16, tags: seq<Tag>, rounds: nat): (r: Option<Tagged>)
    ensures r.Some? ==> off <= r.value.off <= off + 4 * rounds && (r.value.off - off) % 4 == 0
    ensures r.Some? && r.value.off > off ==> r.value.off <= |b|
    decreases rounds
  {
    if rounds == 0 || !IsVlan(proto) then Some(Tagged(off, proto, tags))
    else if |tags| >= 2 || off + 4 > |b| then None
    else TagRun(b, off + 4, Read16(b, off + 2), tags + [Tag(Read16(b, off), proto)], rounds - 1)
  }

  /** The tag list starts with the tag the driver took out, if any. */
  function TagsOf(f: Frame): (r: Option<Tagged>)
    requires |f.bytes| >= 14
    ensures r.Some? ==> r.value.off in {14, 18, 22} && r.value.off <= |f.bytes|
  {
    TagRun(f.bytes, 14, Read16(f.bytes, 12), if f.offload.Some? then [f.offload.value] else [], 2)
  }

  function EtherType(ppp: u16): u16 {
    if ppp == 0x21 then 0x800 else if ppp == 0x57 then 0x86dd else 0
  }

  function LinkOf(f: Frame, mode: Mode): (r: Result<Link>)
    ensures r.Success? ==> r.value.envelope <= |f.bytes|
    ensures r.Success? ==> |r.value.eth| == 14
    ensures r.Success? ==> if mode == L3 then r.value.l3 == 0
                           else r.value.l3 in {14, 18, 22, 26, 30} && |f.bytes| >= r.value.l3
                                && r.value.eth == f.bytes[..14]
                                && f.bytes[0] % 2 == 0 && f.bytes[6] % 2 == 0
    ensures r.Success? && mode != L3 ==>
              TagsOf(f).Some? && r.value.l3 == TagsOf(f).value.off + (if mode == Pppoe then 8 else 0)
    ensures r.Success? ==> (r.value.session != 0 <==> mode == Pppoe)
    ensures r.Success? ==> if mode == Pppoe then 22 <= r.value.l3 && Read16(f.bytes, r.value.l3 - 4) >= 2
                                                 && r.value.envelope == r.value.l3 - 2 + Read16(f.bytes, r.value.l3 - 4)
                           else r.value.envelope == |f.bytes|
  {
    var b := f.bytes;
    if mode == L3 then Success(Link(0, 0, |b|, [], 0, Zeros(14)))
    else if |b| < 14 || b[0] % 2 == 1 || b[6] % 2 == 1 then Failure(Layout)
    else
      match TagsOf(f)
      case None => Failure(Layout)
      case Some(Tagged(off, proto, tags)) =>
        if proto == 0x8864 then
          if mode != Pppoe || off + 8 > |b| then Failure(Layout)
          else if b[off] != 0x11 || b[off + 1] != 0 || Read16(b, off + 2) == 0 || Read16(b, off + 4) < 2
                  || off + 6 + Read16(b, off + 4) > |b| then Failure(Layout)
          else Success(Link(off + 8, EtherType(Read16(b, off + 6)), off + 6 + Read16(b, off + 4), tags,
                            Read16(b, off + 2), b[..14]))
        else if mode == Pppoe then Failure(Layout)
        else Success(Link(off, proto, |b|, tags, 0, b[..14]))
  }

  /** What holds of every header the network layer accepts. */
  predicate NetworkShape(n: Network, off: nat) {
    && n.family in {4, 6}
    && n.l4 == off + (if n.family == 4 then 20 else 40) + (if n.fragmentHeader then 8 else 0)
    && |n.source| == |n.destination| == (if n.family == 4 then 4 else 16)
    && (n.fragmentHeader ==> n.family == 6 && n.protocol == 17)
    && (n.firstFragment ==> n.protocol == 17)
  }

  function Ipv4Of(b: seq<byte>, off: nat): (r: Result<Network>)
    requires off + 20 <= |b|
    ensures r.Success? ==> NetworkShape(r.value, off) && r.value.family == 4
                           && r.value.source == b[off + 12..off + 16] && r.value.destination == b[off + 16..off + 20]
  {
    var frag := Read16(b, off + 6);
    var length := Read16(b, off + 2);
    var more := (frag / 0x2000) % 2 == 1;
    if b[off] != 0x45 then Failure(Ipv4Options)
    else if frag % 0x2000 != 0 || (more && b[off + 9] != 17) then Failure(Fragment)
    else if more && (frag / 0x4000 != 0 || length < 28 || (length - 20) % 8 != 0) then Failure(Fragment)
    else Success(Network(4, b[off + 9], b[off + 8], off + 20, off + length,
                         b[off + 12..off + 16], b[off + 16..off + 20], more, false))
  }

  function Ipv6Of(b: seq<byte>, off: nat, envelope: nat): (r: Result<Network>)
    requires off + 20 <= |b|
    ensures r.Success? ==> NetworkShape(r.value, off) && r.value.family == 6 && off + 40 <= |b|
                           && r.value.source == b[off + 8..off + 24] && r.value.destination == b[off + 24..off + 40]
  {
    if off + 40 > |b| then Failure(Truncated)
    else
      var plain := Network(6, b[off + 6], b[off + 7], off + 40, off + 40 + Read16(b, off + 4),
                           b[off + 8..off + 24], b[off + 24..off + 40], false, false);
      if plain.protocol != 44 then Success(plain)
      else if plain.end > envelope || plain.end < plain.l4 + 8 || plain.l4 + 8 > |b| then Failure(Truncated)
      else
        var frag := Read16(b, plain.l4 + 2);
        if frag / 8 != 0 || b[plain.l4] != 17 then Failure(Fragment)
        else if b[plain.l4 + 1] != 0 || (frag / 2) % 4 != 0 then Failure(Fragment)
        else if frag % 2 == 1 && (plain.end - plain.l4 - 8) % 8 != 0 then Failure(Fragment)
        else Success(plain.(protocol := 17, l4 := plain.l4 + 8, firstFragment := frag % 2 == 1, fragmentHeader := true))
  }

  function NetworkOf(b: seq<byte>, link: Link, mode: Mode): (r: Result<Network>)
    ensures r.Success? ==> link.l3 + 20 <= |b| && NetworkShape(r.value, link.l3)
  {
    var off := link.l3;
    if off + 20 > |b| then Failure(Truncated)
    else if b[off] / 16 == 4 && (mode == L3 || link.proto == 0x800) then Ipv4Of(b, off)
    else if b[off] / 16 == 6 && (mode == L3 || link.proto == 0x86dd) then Ipv6Of(b, off, link.envelope)
    else Failure(IpVersion)
  }

  function TcpOf(b: seq<byte>, l4: nat, end: nat): (r: Result<Transport>)
    ensures r.Success? ==> l4 + 20 <= |b| && 20 <= r.value.hlen <= 60 && l4 + r.value.hlen <= end
                           && r.value.sourcePort == Read16(b, l4) && r.value.destinationPort == Read16(b, l4 + 2)
                           && r.value.checksum == Read16(b, l4 + 16)
  {
    if end < l4 + 20 || l4 + 20 > |b| then Failure(Truncated)
    else
      var hlen := b[l4 + 12] / 16 * 4;
      if hlen < 20 || hlen > 60 || l4 + hlen > end then Failure(Truncated)
      else Success(Transport(hlen, Read32(b, l4 + 4), Read32(b, l4 + 8), b[l4 + 13], Read16(b, l4 + 16),
                             Read16(b, l4), Read16(b, l4 + 2)))
  }

  function UdpOf(b: seq<byte>, n: Network): (r: Result<Transport>)
    ensures r.Success? ==> n.l4 + 8 <= |b| && r.value.hlen == 8 && n.l4 + 8 <= n.end
                           && r.value.sourcePort == Read16(b, n.l4) && r.value.destinationPort == Read16(b, n.l4 + 2)
    ensures r.Success? && n.family == 6 ==> r.value.checksum != 0
  {
    if n.end < n.l4 + 8 || n.l4 + 8 > |b| then Failure(Truncated)
    else
      var length, present := Read16(b, n.l4 + 4), n.end - n.l4;
      var checksum := Read16(b, n.l4 + 6);
      if n.firstFragment && (length <= present || (n.family == 4 && length > 65515)) then Failure(Truncated)
      else if !n.firstFragment && length != present then Failure(Truncated)
      else if n.family == 6 && checksum == 0 then Failure(Truncated)
      else Success(Transport(8, 0, 0, 0, checksum, Read16(b, n.l4), Read16(b, n.l4 + 2)))
  }

  function TransportOf(b: seq<byte>, n: Network, envelope: nat): (r: Result<Transport>)
    ensures r.Success? ==> n.l4 + 8 <= |b| && n.l4 + r.value.hlen <= n.end <= envelope && n.protocol in {6, 17}
    ensures r.Success? ==> if n.protocol == 6 then 20 <= r.value.hlen <= 60 else r.value.hlen == 8
    ensures r.Success? && n.family == 6 && n.protocol == 17 ==> r.value.checksum != 0
  {
    if n.end > envelope || n.end < n.l4 then Failure(Truncated)
    else if n.protocol == 6 then TcpOf(b, n.l4, n.end)
    else if n.protocol == 17 then UdpOf(b, n)
    else Failure(Protocol)
  }

  datatype Layers = Layers(link: Link, network: Network, transport: Transport)

  /** Everything the parser decides before it asks which end is local. */
  function LayersOf(f: Frame, mode: Mode): (r: Result<Layers>)
    ensures r.Success? ==>
              var (l, n, t) := (r.value.link, r.value.network, r.value.transport);
              && |l.eth| == 14 && n.l4 + t.hlen <= n.end <= |f.bytes| <= 4096 && n.l4 + 8 <= |f.bytes|
              && l.l3 in {0, 14, 18, 22, 26, 30} && NetworkShape(n, l.l3) && (l.session != 0 <==> mode == Pppoe)
  {
    if f.gso then Failure(Gso)
    else if |f.bytes| > 4096 then Failure(Length)
    else
      var link :- LinkOf(f, mode);
      var network :- NetworkOf(f.bytes, link, mode);
      var transport :- TransportOf(f.bytes, network, link.envelope);
      Success(Layers(link, network, transport))
  }

  function Assemble(ifindex: u32, iface: Interface, ingress: bool, y: Layers): Packet
    requires |y.link.eth| == 14 && y.network.l4 + y.transport.hlen <= y.network.end
  {
    var (l, n, t) := (y.link, y.network, y.transport);
    var peer := if l.session == 0 then Zeros(6) else if ingress then l.eth[6..12] else l.eth[0..6];
    var key := Key(ifindex, iface.generation,
                   if ingress then n.destination else n.source, if ingress then n.source else n.destination,
                   if ingress then t.destinationPort else t.sourcePort,
                   if ingress then t.sourcePort else t.destinationPort,
                   l.tags, l.session, peer, n.family, n.protocol);
    Packet(key, l.l3, n.l4, n.end, t.hlen, n.end - n.l4 - t.hlen, t.seqno, t.ack, t.checksum, n.ttl, t.flags,
           n.firstFragment, n.fragmentHeader, l.eth)
  }

  /** What the parser makes of a frame seen in one direction on one interface. */
  function Parsed(f: Frame, ifindex: u32, iface: Interface, ingress: bool): Result<Packet> {
    var layers :- LayersOf(f, iface.mode);
    Success(Assemble(ifindex, iface, ingress, layers))
  }

  /** The VLAN loop: at most two tags are taken off, counting one the driver removed. */
  method ReadTags(f: Frame) returns (r: Option<Tagged>)
    requires |f.bytes| >= 14
    ensures r == TagsOf(f)
  {
    var b := f.bytes;
    var off, proto := 14, Read16(b, 12);
    var tags: seq<Tag> := if f.offload.Some? then [f.offload.value] else [];
    var i := 0;
    while i < 2
      invariant 0 <= i <= 2
      invariant TagsOf(f) == TagRun(b, off, proto, tags, 2 - i)
    {
      if !IsVlan(proto) { break; }
      if |tags| >= 2 || off + 4 > |b| { return None; }
      tags := tags + [Tag(Read16(b, off), proto)];
      proto := Read16(b, off + 2);
      off := off + 4;
      i := i + 1;
    }
    r := Some(Tagged(off, proto, tags));
  }

  /** The parser as it runs: one pass, leaving at the first layer that does not fit. */
  method Parse(f: Frame, ifindex: u32, iface: Interface, ingress: bool) returns (r: Result<Packet>)
    ensures r == Parsed(f, ifindex, iface, ingress)
  {
    var b := f.bytes;
    if f.gso { return Failure(Gso); }
    if |b| > 4096 { return Failure(Length); }
    var off, proto, envelope := 0, 0, |b|;
    var tags: seq<Tag>, session: u16, eth: seq<byte> := [], 0, Zeros(14);
    if iface.mode != L3 {
      if |b| < 14 { return Failure(Layout); }
      eth := b[..14];
      if eth[0] % 2 == 1 || eth[6] % 2 == 1 { return Failure(Layout); }
      var tagged := ReadTags(f);
      if tagged.None? { return Failure(Layout); }
      off, proto, tags := tagged.value.off, tagged.value.proto, tagged.value.tags;
      if proto == 0x8864 {
        if iface.mode != Pppoe || off + 8 > |b| { return Failure(Layout); }
        var length := Read16(b, off + 4);
        if b[off] != 0x11 || b[off + 1] != 0 || Read16(b, off + 2) == 0 || length < 2 || off + 6 + length > |b| {
          return Failure(Layout);
        }
        session, envelope := Read16(b, off + 2), off + 6 + length;
        proto := EtherType(Read16(b, off + 6));
        off := off + 8;
      } else if iface.mode == Pppoe {
        return Failure(Layout);
      }
    }
    var link := Link(off, proto, envelope, tags, session, eth);
    assert LinkOf(f, iface.mode) == Success(link);
    var network := NetworkOf(b, link, iface.mode);
    if network.Failure? { return Failure(network.reason); }
    var transport := TransportOf(b, network.value, envelope);
    if transport.Failure? { return Failure(transport.reason); }
    r := Success(Assemble(ifindex, iface, ingress, Layers(link, network.value, transport.value)));
  }

  /** The bounds every later access of the data path relies on. */
  predicate Bounded(f: Frame, mode: Mode, p: Packet) {
    && p.l3 in {0, 14, 18, 22, 26, 30}
    && p.l3 + (if p.key.family == 4 then 20 else 40) + (if p.fragmentHeader then 8 else 0) == p.l4
    && p.l4 + p.hlen <= p.end <= |f.bytes| <= 4096
    && p.bytes == p.end - (p.l4 + p.hlen)
    && (p.key.protocol == 6 ==> 20 <= p.hlen <= 60 && !p.firstFragment && !p.fragmentHeader)
    && (p.key.protocol == 17 ==> p.hlen == 8)
    && p.key.protocol in {6, 17} && p.key.family in {4, 6}
    && |p.key.local| == |p.key.remote| == (if p.key.family == 4 then 4 else 16)
    && |p.eth| == 14 && (p.l3 > 0 ==> mode != L3 && p.eth == f.bytes[..14])
    && (p.key.session != 0 ==> 22 <= p.l3 && mode == Pppoe)
    && (p.fragmentHeader ==> p.key.family == 6 && p.key.protocol == 17)
    && (p.firstFragment ==> p.key.protocol == 17)
    && (p.key.family == 6 && p.key.protocol == 17 ==> p.checksum != 0)
  }

  lemma {:induction false} ParsedBounds(f: Frame, ifindex: u32, iface: Interface, ingress: bool)
    requires Parsed(f, ifindex, iface, ingress).Success?
    ensures Bounded(f, iface.mode, Parsed(f, ifindex, iface, ingress).value)
  {
  }

  /** The bytes are only inspected where the tags are. */
  lemma {:induction false} TagRunAgrees(b: seq<byte>, c: seq<byte>, off: nat, proto: u16, tags: seq<Tag>, rounds: nat)
    requires TagRun(b, off, proto, tags, rounds).Some?
    requires var end := TagRun(b, off, proto, tags, rounds).value.off;
             end <= |b| && end <= |c| && b[off..end] == c[off..end]
    ensures TagRun(c, off, proto, tags, rounds) == TagRun(b, off, proto, tags, rounds)
    decreases rounds
  {
    if rounds > 0 && IsVlan(proto) {
      var end := TagRun(b, off, proto, tags, rounds).value.off;
      assert end >= off + 4;
      forall k | off <= k < end
        ensures b[k] == c[k]
      {
        assert b[off..end][k - off] == c[off..end][k - off];
      }
      TagRunAgrees(b, c, off + 4, Read16(b, off + 2), tags + [Tag(Read16(b, off), proto)], rounds - 1);
    }
  }

  // ---------- direction symmetry ----------

  /** Where the mirror image takes its byte `k` from: MACs, addresses and ports are exchanged. */
  function MirrorIndex(k: nat, l3: nat, l4: nat, family: nat): (i: nat) {
    var (at, n) := if family == 4 then (l3 + 12, 4) else (l3 + 8, 16);
    if l3 > 0 && k < 12 then (k + 6) % 12
    else if at <= k < at + n then k + n
    else if at + n <= k < at + 2 * n then k - n
    else if l4 <= k < l4 + 2 then k + 2
    else if l4 + 2 <= k < l4 + 4 then k - 2
    else k
  }

  /** The frame as the other end would send it. */
  function MirrorBytes(b: seq<byte>, l3: nat, l4: nat, family: nat): (r: seq<byte>)
    requires l3 == 0 || l3 >= 12
    requires l3 + (if family == 4 then 20 else 40) <= l4 && l4 + 4 <= |b|
    ensures |r| == |b| && forall k :: 0 <= k < |b| ==> r[k] == b[MirrorIndex(k, l3, l4, family)]
  {
    seq(|b|, k requires 0 <= k < |b| => b[MirrorIndex(k, l3, l4, family)])
  }

  /** A frame the parser refuses has no mirror image. */
  function Mirror(f: Frame, mode: Mode): Frame {
    match LayersOf(f, mode)
    case Failure(_) => f
    case Success(y) => f.(bytes := MirrorBytes(f.bytes, y.link.l3, y.network.l4, y.network.family))
  }

  function MirrorLayers(y: Layers, eth: seq<byte>): Layers {
    Layers(y.link.(eth := eth),
           y.network.(source := y.network.destination, destination := y.network.source),
           y.transport.(sourcePort := y.transport.destinationPort, destinationPort := y.transport.sourcePort))
  }

  /**
   A SYN and its SYN-ACK meet in one entry: a frame and its mirror image, seen in
   opposite directions, are accepted together and carry one flow key. Everything
   else the parser extracts is the same, except that the MACs are exchanged.
   */
  lemma {:induction false} MirrorSameFlow(f: Frame, ifindex: u32, iface: Interface, ingress: bool)
    ensures var (r, s) := (Parsed(f, ifindex, iface, ingress), Parsed(Mirror(f, iface.mode), ifindex, iface, !ingress));
            && (r.Success? <==> s.Success?)
            && (r.Success? ==> s.value == r.value.(eth := s.value.eth))
  {
    hide LayersOf, MirrorBytes;
    match LayersOf(f, iface.mode)
    case Failure(_) =>
    case Success(y) =>
      MirrorParses(f, iface.mode);
      var e := y.link.eth;
      var m := e[6..12] + e[0..6] + e[12..14];
      assert m[0..6] == e[6..12] && m[6..12] == e[0..6];
  }

  lemma {:induction false} MirrorBytesTwice(b: seq<byte>, l3: nat, l4: nat, family: nat)
    requires l3 == 0 || l3 >= 12
    requires l3 + (if family == 4 then 20 else 40) <= l4 && l4 + 4 <= |b|
    ensures MirrorBytes(MirrorBytes(b, l3, l4, family), l3, l4, family) == b
  {
    forall k | 0 <= k < |b|
      ensures MirrorIndex(MirrorIndex(k, l3, l4, family), l3, l4, family) == k && MirrorIndex(k, l3, l4, family) < |b|
    {
    }
  }

  /** Mirroring twice gives the frame back. */
  lemma {:induction false} MirrorTwice(f: Frame, mode: Mode)
    ensures Mirror(Mirror(f, mode), mode) == f
  {
    hide LayersOf, MirrorBytes;
    if LayersOf(f, mode).Success? {
      MirrorParses(f, mode);
      var y := LayersOf(f, mode).value;
      MirrorBytesTwice(f.bytes, y.link.l3, y.network.l4, y.network.family);
    }
  }

  lemma {:induction false} MirrorParses(f: Frame, mode: Mode)
    requires LayersOf(f, mode).Success?
    ensures var y := LayersOf(f, mode).value;
            var e := y.link.eth;
            LayersOf(Mirror(f, mode), mode) ==
              Success(MirrorLayers(y, if mode == L3 then e else e[6..12] + e[0..6] + e[12..14]))
  {
    hide LinkOf, NetworkOf, TransportOf, MirrorBytes;
    var y, g := LayersOf(f, mode).value, Mirror(f, mode);
    MirrorLink(f, g, mode, y.network.l4, y.network.family);
    MirrorNetwork(f.bytes, g.bytes, y.link, LinkOf(g, mode).value, mode);
    MirrorTransport(f.bytes, g.bytes, y.network, y.link);
  }

  lemma {:induction false} SameSlice(b: seq<byte>, c: seq<byte>, i: nat, j: nat)
    requires i <= j <= |b| && j <= |c| && b[i..j] == c[i..j]
    ensures forall k :: i <= k < j ==> b[k] == c[k]
    ensures forall k :: i <= k < j - 1 ==> Read16(b, k) == Read16(c, k)
  {
    forall k | i <= k < j
      ensures b[k] == c[k]
    {
      assert b[i..j][k - i] == c[i..j][k - i];
    }
  }

  lemma {:induction false} TagsAgree(f: Frame, g: Frame)
    requires |f.bytes| >= 14 && |g.bytes| >= 14 && g.offload == f.offload && TagsOf(f).Some?
    requires var end := TagsOf(f).value.off; end <= |g.bytes| && f.bytes[12..end] == g.bytes[12..end]
    ensures TagsOf(g) == TagsOf(f)
  {
    var (b, c) := (f.bytes, g.bytes);
    var end := TagsOf(f).value.off;
    SameSlice(b, c, 12, end);
    assert b[14..end] == c[14..end];
    TagRunAgrees(b, c, 14, Read16(b, 12), if f.offload.Some? then [f.offload.value] else [], 2);
  }

  lemma {:induction false} L3Agrees(f: Frame, g: Frame)
    ensures LinkOf(f, L3).Success?
    ensures LinkOf(g, L3) == Success(LinkOf(f, L3).value.(envelope := |g.bytes|))
    ensures LinkOf(f, L3).value.envelope == |f.bytes|
  {
  }

  /** The link layer reads the MAC parity bits and everything from the type to the IP header. */
  lemma {:induction false} LinkAgrees(f: Frame, g: Frame, mode: Mode)
    requires LinkOf(f, mode).Success? && mode == Ethernet
    requires var l3 := LinkOf(f, mode).value.l3;
             && l3 <= |g.bytes| && g.offload == f.offload && g.bytes[12..l3] == f.bytes[12..l3]
             && g.bytes[0] % 2 == 0 && g.bytes[6] % 2 == 0
    ensures LinkOf(g, mode) == Success(LinkOf(f, mode).value.(eth := g.bytes[..14], envelope := |g.bytes|))
  {
    TagsAgree(f, g);
  }

  /** With PPPoE the length field moves the envelope; nothing else in the session header may differ. */
  lemma {:induction false} PppoeAgrees(f: Frame, g: Frame)
    requires LinkOf(f, Pppoe).Success?
    requires var l3 := LinkOf(f, Pppoe).value.l3;
             && l3 <= |f.bytes| && l3 <= |g.bytes| && g.offload == f.offload
             && g.bytes[12..l3 - 4] == f.bytes[12..l3 - 4] && g.bytes[l3 - 2..l3] == f.bytes[l3 - 2..l3]
             && g.bytes[0] % 2 == 0 && g.bytes[6] % 2 == 0
             && Read16(g.bytes, l3 - 4) >= 2 && l3 - 2 + Read16(g.bytes, l3 - 4) <= |g.bytes|
    ensures var l3 := LinkOf(f, Pppoe).value.l3;
            LinkOf(g, Pppoe) == Success(LinkOf(f, Pppoe).value.(
                                        eth := g.bytes[..14], envelope := l3 - 2 + Read16(g.bytes, l3 - 4)))
  {
    hide TagsOf;
    var (b, c) := (f.bytes, g.bytes);
    var off := TagsOf(f).value.off;
    assert LinkOf(f, Pppoe).value.l3 == off + 8;
    SameSlice(b, c, 12, off + 4);
    SameSlice(b, c, off + 6, off + 8);
    assert b[12..off] == c[12..off];
    TagsAgree(f, g);
  }

  lemma {:induction false} MirrorMacs(b: seq<byte>, c: seq<byte>, l3: nat, l4: nat, family: nat)
    requires l3 >= 14 && l3 + (if family == 4 then 20 else 40) <= l4 && l4 + 4 <= |b|
    requires c == MirrorBytes(b, l3, l4, family)
    ensures forall i, j :: 12 <= i <= j <= l3 ==> c[i..j] == b[i..j]
    ensures c[0] == b[6] && c[6] == b[0] && c[..14] == b[..14][6..12] + b[..14][0..6] + b[..14][12..14]
  {
  }

  lemma {:induction false} MirrorLink(f: Frame, g: Frame, mode: Mode, l4: nat, family: nat)
    requires LinkOf(f, mode).Success?
    requires var l3 := LinkOf(f, mode).value.l3;
             && l3 + (if family == 4 then 20 else 40) <= l4 && l4 + 4 <= |f.bytes|
             && g == f.(bytes := MirrorBytes(f.bytes, l3, l4, family))
    ensures var (l, e) := (LinkOf(f, mode).value, LinkOf(f, mode).value.eth);
            LinkOf(g, mode) == Success(l.(eth := if mode == L3 then e else e[6..12] + e[0..6] + e[12..14]))
  {
    hide LinkOf;
    var l3 := LinkOf(f, mode).value.l3;
    assert |g.bytes| == |f.bytes|;
    if mode == L3 {
      L3Agrees(f, g);
    } else {
      hide MirrorBytes, MirrorIndex;
      MirrorMacs(f.bytes, g.bytes, l3, l4, family);
      if mode == Ethernet {
        LinkAgrees(f, g, mode);
      } else {
        SameSlice(f.bytes, g.bytes, l3 - 4, l3 - 2);
        PppoeAgrees(f, g);
      }
    }
  }

  lemma {:induction false} Ipv4Agrees(b: seq<byte>, c: seq<byte>, off: nat)
    requires off + 20 <= |b| == |c| && Ipv4Of(b, off).Success? && b[off..off + 12] == c[off..off + 12]
    ensures Ipv4Of(c, off) ==
              Success(Ipv4Of(b, off).value.(source := c[off + 12..off + 16], destination := c[off + 16..off + 20]))
  {
    SameSlice(b, c, off, off + 12);
  }

  lemma {:induction false} Ipv6Agrees(b: seq<byte>, c: seq<byte>, off: nat, envelope: nat)
    requires off + 20 <= |b| == |c| && Ipv6Of(b, off, envelope).Success?
    requires off + 40 <= |b| && b[off..off + 8] == c[off..off + 8]
    requires var l4 := Ipv6Of(b, off, envelope).value.l4; l4 <= |b| && b[off + 40..l4] == c[off + 40..l4]
    ensures Ipv6Of(c, off, envelope) ==
              Success(Ipv6Of(b, off, envelope).value.(source := c[off + 8..off + 24],
                  destination := c[off + 24..off + 40]))
  {
    SameSlice(b, c, off, off + 8);
    SameSlice(b, c, off + 40, Ipv6Of(b, off, envelope).value.l4);
  }

  lemma {:induction false} MirrorIpv4(b: seq<byte>, c: seq<byte>, off: nat, l4: nat)
    requires (off == 0 || off >= 12) && off + 20 <= l4 && l4 + 4 <= |b| && c == MirrorBytes(b, off, l4, 4)
    ensures c[off] == b[off] && b[off..off + 12] == c[off..off + 12]
    ensures c[off + 12..off + 16] == b[off + 16..off + 20] && c[off + 16..off + 20] == b[off + 12..off + 16]
  {
  }

  lemma {:induction false} MirrorIpv6(b: seq<byte>, c: seq<byte>, off: nat, l4: nat)
    requires (off == 0 || off >= 12) && off + 40 <= l4 && l4 + 4 <= |b| && c == MirrorBytes(b, off, l4, 6)
    ensures c[off] == b[off] && b[off..off + 8] == c[off..off + 8] && b[off + 40..l4] == c[off + 40..l4]
    ensures c[off + 8..off + 24] == b[off + 24..off + 40] && c[off + 24..off + 40] == b[off + 8..off + 24]
  {
  }

  lemma {:induction false} MirrorNetwork(b: seq<byte>, c: seq<byte>, l: Link, m: Link, mode: Mode)
    requires l.l3 == 0 || l.l3 >= 12
    requires m == l.(eth := m.eth) && NetworkOf(b, l, mode).Success?
    requires var n := NetworkOf(b, l, mode).value;
             n.l4 + 4 <= |b| && c == MirrorBytes(b, l.l3, n.l4, n.family)
    ensures var n := NetworkOf(b, l, mode).value;
            NetworkOf(c, m, mode) == Success(n.(source := n.destination, destination := n.source))
  {
    hide Ipv4Of, Ipv6Of, MirrorBytes;
    var n := NetworkOf(b, l, mode).value;
    if n.family == 4 {
      MirrorIpv4(b, c, l.l3, n.l4);
      Ipv4Agrees(b, c, l.l3);
    } else {
      MirrorIpv6(b, c, l.l3, n.l4);
      Ipv6Agrees(b, c, l.l3, l.envelope);
    }
  }

  /** The TCP header is read for its ports and checksum, and from the sequence number to the flags. */
  lemma {:induction false} TcpAgrees(b: seq<byte>, c: seq<byte>, l4: nat, end: nat)
    requires TcpOf(b, l4, end).Success? && |c| == |b| && b[l4 + 4..l4 + 14] == c[l4 + 4..l4 + 14]
    ensures TcpOf(c, l4, end) ==
              Success(TcpOf(b, l4, end).value.(sourcePort := Read16(c, l4), destinationPort := Read16(c, l4 + 2),
                                               checksum := Read16(c, l4 + 16)))
  {
    var (x, y) := (b[l4 + 4..l4 + 14], c[l4 + 4..l4 + 14]);
    assert x[8] == b[l4 + 12] && y[8] == c[l4 + 12] && x[9] == b[l4 + 13] && y[9] == c[l4 + 13];
    assert Read32(b, l4 + 4) == Read32(x, 0) && Read32(c, l4 + 4) == Read32(y, 0);
    assert Read32(b, l4 + 8) == Read32(x, 4) && Read32(c, l4 + 8) == Read32(y, 4);
  }

  lemma {:induction false} UdpAgrees(b: seq<byte>, c: seq<byte>, n: Network, o: Network)
    requires UdpOf(b, n).Success? && |c| == |b| && b[n.l4 + 4..n.l4 + 8] == c[n.l4 + 4..n.l4 + 8]
    requires o == n.(source := o.source, destination := o.destination)
    ensures UdpOf(c, o) ==
              Success(UdpOf(b, n).value.(sourcePort := Read16(c, n.l4), destinationPort := Read16(c, n.l4 + 2)))
  {
    var (x, y) := (b[n.l4 + 4..n.l4 + 8], c[n.l4 + 4..n.l4 + 8]);
    assert Read16(b, n.l4 + 4) == Read16(x, 0) && Read16(c, n.l4 + 4) == Read16(y, 0);
    assert Read16(b, n.l4 + 6) == Read16(x, 2) && Read16(c, n.l4 + 6) == Read16(y, 2);
  }

  lemma {:induction false} MirrorPorts(b: seq<byte>, c: seq<byte>, l3: nat, l4: nat, family: nat)
    requires (l3 == 0 || l3 >= 12) && l3 + (if family == 4 then 20 else 40) <= l4 && l4 + 4 <= |b|
    requires c == MirrorBytes(b, l3, l4, family)
    ensures Read16(c, l4) == Read16(b, l4 + 2) && Read16(c, l4 + 2) == Read16(b, l4)
    ensures c[l4 + 4..] == b[l4 + 4..]
  {
  }

  lemma {:induction false} ReadTail(b: seq<byte>, c: seq<byte>, from: nat, at: nat)
    requires from <= at && at + 2 <= |b| == |c| && b[from..] == c[from..]
    ensures Read16(b, at) == Read16(c, at)
  {
    assert b[at] == b[from..][at - from] && b[at + 1] == b[from..][at + 1 - from];
  }

  lemma {:induction false} PrefixSlices(b: seq<byte>, c: seq<byte>, n: nat)
    requires n <= |b| && n <= |c| && b[..n] == c[..n]
    ensures forall i, j :: 0 <= i <= j <= n ==> b[i..j] == c[i..j]
  {
    assert forall i, j :: 0 <= i <= j <= n ==> b[i..j] == b[..n][i..j] && c[i..j] == c[..n][i..j];
  }

  lemma {:induction false} PrefixLink(f: Frame, g: Frame, mode: Mode, n: nat)
    requires LinkOf(f, mode).Success? && LinkOf(f, mode).value.l3 <= n
    requires g.offload == f.offload && |g.bytes| == |f.bytes| && n <= |f.bytes| && f.bytes[..n] == g.bytes[..n]
    ensures LinkOf(g, mode) == LinkOf(f, mode)
  {
    hide LinkOf;
    var (b, c) := (f.bytes, g.bytes);
    if mode == L3 {
      L3Agrees(f, g);
    } else {
      PrefixSlices(b, c, n);
      FirstBytes(b, c, n);
      if mode == Ethernet {
        LinkAgrees(f, g, mode);
      } else {
        var l3 := LinkOf(f, mode).value.l3;
        SameSlice(b, c, l3 - 4, l3 - 2);
        PppoeAgrees(f, g);
      }
    }
  }

  lemma FirstBytes(b: seq<byte>, c: seq<byte>, n: nat)
    requires 14 <= n <= |b| == |c| && b[..n] == c[..n]
    ensures b[0] == c[0] && b[6] == c[6] && b[..14] == c[..14]
  {
    assert b[0] == b[..n][0] == c[..n][0] && b[6] == b[..n][6] == c[..n][6];
    assert b[..14] == b[..n][..14] == c[..n][..14];
  }

  /** Two frames of one length that agree up to the transport header have the same link and network layers. */
  lemma {:induction false} PrefixAgrees(f: Frame, g: Frame, mode: Mode, l: Link, n: Network)
    requires LinkOf(f, mode) == Success(l) && NetworkOf(f.bytes, l, mode) == Success(n)
    requires g.offload == f.offload && |g.bytes| == |f.bytes| && n.l4 <= |f.bytes|
    requires f.bytes[..n.l4] == g.bytes[..n.l4]
    ensures LinkOf(g, mode) == Success(l) && NetworkOf(g.bytes, l, mode) == Success(n)
  {
    hide LinkOf, Ipv4Of, Ipv6Of;
    var (b, c, off) := (f.bytes, g.bytes, l.l3);
    PrefixLink(f, g, mode, n.l4);
    PrefixSlices(b, c, n.l4);
    assert b[off] == b[..n.l4][off] && c[off] == c[..n.l4][off];
    if n.family == 4 {
      Ipv4Agrees(b, c, off);
    } else {
      Ipv6Agrees(b, c, off, l.envelope);
    }
  }

  lemma {:induction false} MirrorTransport(b: seq<byte>, c: seq<byte>, n: Network, l: Link)
    requires l.l3 == 0 || l.l3 >= 12
    requires l.l3 + (if n.family == 4 then 20 else 40) <= n.l4 && n.l4 + 4 <= |b|
    requires c == MirrorBytes(b, l.l3, n.l4, n.family)
    requires TransportOf(b, n, l.envelope).Success?
    ensures var (t, o) := (TransportOf(b, n, l.envelope).value, n.(source := n.destination, destination := n.source));
            TransportOf(c, o, l.envelope) == Success(t.(sourcePort := t.destinationPort,
                destinationPort := t.sourcePort))
  {
    hide TcpOf, UdpOf, MirrorBytes;
    MirrorPorts(b, c, l.l3, n.l4, n.family);
    if n.protocol == 6 {
      assert b[n.l4 + 4..n.l4 + 14] == b[n.l4 + 4..][..10] && c[n.l4 + 4..n.l4 + 14] == c[n.l4 + 4..][..10];
      ReadTail(b, c, n.l4 + 4, n.l4 + 16);
      TcpAgrees(b, c, n.l4, n.end);
    } else {
      assert b[n.l4 + 4..n.l4 + 8] == b[n.l4 + 4..][..4] && c[n.l4 + 4..n.l4 + 8] == c[n.l4 + 4..][..4];
      UdpAgrees(b, c, n, n.(source := n.destination, destination := n.source));
    }
  }
}
