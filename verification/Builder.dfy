/**
 The builder: a cloned packet rewritten in place into a complete fake packet
 (ebpf/bpf/builder.bpf.c). The frame it leaves behind is `Built`.
 */
module Builder {
  import opened Bytes
  import opened Common
  import opened Checksum
  import opened Packets
  import opened Abi

  datatype Order = Order(reverse: bool, ttl: u32, gen: u32, pick: u32)

  function HeaderBytes(p: Packet): nat { if p.key.family == 4 then 20 else 40 }

  function TransportBytes(p: Packet): nat { if p.key.protocol == 6 then 20 else 8 }

  function Fresh(p: Packet): bool { p.firstFragment || p.fragmentHeader }

  function Wanted(o: Order): u32 { TemplateKey(o.gen, PickedPlan(o.pick), PickedVariant(o.pick)) }

  /** The packet can be built: it parses, its template exists, and the result fits the link. */
  predicate Buildable(f: Frame, ifindex: u32, iface: Interface, o: Order, templates: map<u32, Template>) {
    var r := Parsed(f, ifindex, iface, o.reverse);
    && r.Success?
    && Wanted(o) in templates
    && 0 < templates[Wanted(o)].len <= PAYLOAD_MAX
    && HeaderBytes(r.value) + TransportBytes(r.value) + templates[Wanted(o)].len <= iface.mtu
  }

  // ---------- the rewritten layers ----------

  function MacsOf(head: seq<byte>, p: Packet, reverse: bool): (r: seq<byte>)
    requires |p.eth| == 14 && |head| >= 12
    ensures |r| == |head|
  {
    if reverse then Splice(Splice(head, 0, p.eth[6..12]), 6, p.eth[0..6]) else head
  }

  function EthernetOf(head: seq<byte>, p: Packet, reverse: bool, total: nat): (r: seq<byte>)
    requires |p.eth| == 14 && (p.l3 > 0 ==> |head| >= 12) && (p.key.session != 0 ==> 4 <= p.l3 <= |head| + 2)
    ensures |r| == |head|
  {
    var macs := if p.l3 > 0 then MacsOf(head, p, reverse) else head;
    if p.key.session != 0 then Splice(macs, p.l3 - 4, Be16(total + 2)) else macs
  }

  function Ipv4Header(head: seq<byte>, p: Packet, ttl: u32, total: nat): (r: seq<byte>)
    requires |head| >= 20 && |p.key.local| == |p.key.remote| == 4
    ensures |r| == |head|
  {
    var a := Splice(Splice(head, 12, p.key.local), 16, p.key.remote);
    var b := if p.firstFragment then Splice(a, 6, Be16(0)) else a;
    Splice(Splice(Splice(b, 2, Be16(total)), 8, [ttl % 256]), 10, [0, 0])
  }

  function RewriteIpv4(head: seq<byte>, p: Packet, ttl: u32, total: nat): (r: seq<byte>)
    requires |head| == 20 && |p.key.local| == |p.key.remote| == 4
    ensures |r| == 20
  {
    var blank := Ipv4Header(head, p, ttl, total);
    Splice(blank, 10, Be16(0xffff - Fold(WordSum(blank))))
  }

  function RewriteIpv6(head: seq<byte>, p: Packet, ttl: u32, transport: nat): (r: seq<byte>)
    requires |head| >= 40 && |p.key.local| == |p.key.remote| == 16
    ensures |r| == |head|
  {
    var a := Splice(Splice(head, 8, p.key.local), 24, p.key.remote);
    var b := Splice(Splice(a, 4, Be16(transport)), 7, [ttl % 256]);
    if p.fragmentHeader then Splice(b, 6, [17]) else b
  }

  function IpOf(head: seq<byte>, p: Packet, ttl: u32, transport: nat): (r: seq<byte>)
    requires |head| == HeaderBytes(p)
    requires |p.key.local| == |p.key.remote| == if p.key.family == 4 then 4 else 16
    ensures |r| == |head|
  {
    if p.key.family == 4 then RewriteIpv4(head, p, ttl, 20 + transport) else RewriteIpv6(head, p, ttl, transport)
  }

  /** The transport header with the old checksum (or none) as a seed, in a zeroed 20-byte buffer. */
  function Seeded(p: Packet, reverse: bool, transport: nat): (r: seq<byte>)
    ensures |r| == 20
  {
    var ports := Be16(p.key.localPort) + Be16(p.key.remotePort);
    var next := (p.seqno + 1) % U32;
    if p.key.protocol == 6 then
      ports + Be32(if reverse then p.ack else next) + Be32(if reverse then next else p.ack)
      + [0x50, 0x18] + Be16(128) + Be16(p.checksum) + [0, 0]
    else
      ports + Be16(transport) + Be16(if Fresh(p) then 0 else p.checksum) + Zeros(12)
  }

  function PseudoHeader(source: seq<byte>, destination: seq<byte>, family: nat, protocol: byte,
        length: nat): seq<byte> {
    source + destination +
    (if family == 4 then [0, protocol] + Be16(length) else Be32(length) + [0, 0, 0, protocol])
  }

  // ---------- the checksum field ----------

  /** Data and pseudo-header differences applied to the old field. */
  function Incremental(p: Packet, before: nat, after: nat, transport: nat): u16
    requires p.l4 <= p.end < U32 && transport < U32
  {
    var udp := p.key.protocol == 17;
    var delta := Fold(0xffff - Fold(before) + after);
    var first := Mangled(udp, p.checksum, ReplaceByDiff(p.checksum, delta));
    Mangled(udp, first, Replace4(first, p.end - p.l4, transport))
  }

  /** A checksum from nothing: one's-complement zero, then the data, then the pseudo-header. */
  function FromNothing(data: nat, pseudo: nat): u16 {
    var first := Mangled(true, 0xffff, ReplaceByDiff(0xffff, Fold(data)));
    Mangled(true, first, ReplaceByDiff(first, Fold(pseudo)))
  }

  function ChecksumOf(f: Frame, p: Packet, reverse: bool, t: Template): u16
    requires p.l4 <= p.end <= |f.bytes| <= 4096 && t.len <= PAYLOAD_MAX
  {
    var transport := TransportBytes(p) + t.len;
    var data := WordSum(Seeded(p, reverse, transport)) + WordSum(t.data[..t.len]);
    if Fresh(p) then
      FromNothing(data, WordSum(PseudoHeader(p.key.local, p.key.remote, p.key.family, 17, transport)))
    else
      Incremental(p, WordSum(f.bytes[p.l4..p.end]), data, transport)
  }

  function FieldAt(p: Packet): nat { if p.key.protocol == 6 then 16 else 6 }

  function TransportHeader(p: Packet, reverse: bool, transport: nat, checksum: u16): (r: seq<byte>)
    ensures |r| == TransportBytes(p)
  {
    Splice(Seeded(p, reverse, transport)[..TransportBytes(p)], FieldAt(p), Be16(checksum))
  }

  /** The whole fake frame: link layer, IP header, transport header, payload. */
  function Rebuilt(f: Frame, mode: Mode, p: Packet, o: Order, t: Template): Frame
    requires Bounded(f, mode, p) && t.len <= PAYLOAD_MAX
  {
    var transport := TransportBytes(p) + t.len;
    var eth := EthernetOf(f.bytes[..p.l3], p, o.reverse, HeaderBytes(p) + transport);
    var ip := IpOf(f.bytes[p.l3..p.l3 + HeaderBytes(p)], p, o.ttl, transport);
    var th := TransportHeader(p, o.reverse, transport, ChecksumOf(f, p, o.reverse, t));
    f.(bytes := eth + ip + th + t.data[..t.len])
  }

  function Built(f: Frame, ifindex: u32, iface: Interface, o: Order, t: Template): Frame
    requires Parsed(f, ifindex, iface, o.reverse).Success? && t.len <= PAYLOAD_MAX
  {
    ParsedBounds(f, ifindex, iface, o.reverse);
    Rebuilt(f, iface.mode, Parsed(f, ifindex, iface, o.reverse).value, o, t)
  }
}
