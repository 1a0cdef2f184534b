/**
 From the packet that triggers an injection to the fake packet on the wire: the trigger, the
 template pick and the builder put together (ebpf/bpf/tcp.h:130-137, ebpf/bpf/observer.bpf.c:45-62,
 ebpf/bpf/builder.bpf.c:53-58, 109-113).
 */
module EndToEnd {
  import opened Bytes
  import opened Common
  import opened Abi
  import P = Packets
  import B = Builder
  import BP = BuilderParse
  import O = OptionsRewrite
  import T = TcpFlow
  import TT = TcpTrigger
  import G = Generations
  import L = TemplateLookup

  /** The event is the trigger's reading of this frame. */
  predicate Saw(e: T.Event, f: P.Frame, ifindex: u32, iface: P.Interface, a: TT.Arrival, faults: O.Faults) {
    var r := P.Parsed(f, ifindex, iface, a.ingress);
    r.Success? && r.value.key.protocol == 6
    && (TT.ParsedSegment(f, ifindex, iface, a.ingress); e == TT.EventOf(f.bytes, r.value, a, faults))
  }

  /**
   Every fake segment for a batch carries, as the wire reads it, the SYN-ACK's number plus one on
   one side and on the other the number of the SYN that opened the generation plus one, with or
   without its data. An incoming SYN-ACK is answered as the client would, an outgoing one as the
   server that sent it; all modulo 2^32.
   */
  lemma {:induction false} FakeSequence(r: T.Run, i: nat, f: P.Frame, ifindex: u32, wan: u32, iface: P.Interface,
      a: TT.Arrival, faults: O.Faults, o: B.Order, t: Template)
    requires T.Plausible(r) && i < |r.es| && T.Batch(r, i)
    requires Saw(r.es[i], f, ifindex, iface, a, faults) && 0 < t.len <= PAYLOAD_MAX && o.reverse == a.ingress
    ensures var (g, e) := (T.Generation(r, i), r.es[i]);
            var q := P.Parsed(B.Built(f, ifindex, iface, o, t), wan, iface, false);
            && q.Success? && g < i && T.Counts(r.es[g]) && r.es[g].ingress != e.ingress && T.IsSynAck(e)
            && var (own, other) := if e.ingress then (q.value.seqno, q.value.ack) else (q.value.ack, q.value.seqno);
               && other == (e.seqno + 1) % U32
               && (own == (r.es[g].seqno + 1) % U32 || own == (r.es[g].seqno + 1 + T.SynData(r, g, i)) % U32)
  {
    hide P.Parsed, B.Built, T.Generation, T.SynData, T.Counts, T.IsSynAck, TT.Refused;
    T.HandshakeBatch(r, i);
    BP.BuildThenParse(f, ifindex, wan, iface, o, t);
  }

  /** The frame the fakes are cloned from is the one that was parsed: its options stay as they are. */
  lemma {:induction false} ClonedAsParsed(r: T.Run, i: nat, f: P.Frame, ifindex: u32, iface: P.Interface,
      a: TT.Arrival, faults: O.Faults, p: P.Packet)
    requires T.Plausible(r) && i < |r.es| && T.Batch(r, i) && Saw(r.es[i], f, ifindex, iface, a, faults)
    requires P.Parsed(f, ifindex, iface, a.ingress) == P.Success(p)
    ensures TT.Segment(f.bytes, p) && TT.Left(f.bytes, p, a, faults) == f.bytes
  {
    hide P.Parsed, T.Generation, T.SynData, T.Counts, T.IsSynAck, TT.Refused, TT.Left;
    TT.ParsedSegment(f, ifindex, iface, a.ingress);
    T.HandshakeBatch(r, i);
    TT.SynAckLeft(f.bytes, p, a, faults);
  }

  /**
   The active number is read at one write, its configuration at a later one, and the clone is built at a
   later one still: a packet that parses and fits is built exactly if the configuration has variants for
   the plan, from the template published for it. A plan without variants costs the clone and nothing else.
   */
  lemma {:induction false} BuiltFromPublished(h: seq<G.View>, i: nat, m: nat, j: nat, ttl: u32, plan: u32,
        random: u32,
      f: P.Frame, ifindex: u32, iface: P.Interface, reverse: bool)
    requires G.HistoryOk(h) && i <= m <= j < |h| && (i < j ==> h[j - 1].active <= h[i].active + 1)
    requires 0 < h[i].active <= G.LAST_GENERATION && ttl < 256 && plan < PLANS
    ensures h[i].active in h[m].configs && G.Sound(h[m].configs[h[i].active])
    ensures var c := h[m].configs[h[i].active];
            var o := B.Order(reverse, ttl, c.generation, L.Request(c, L.EmitWord(ttl, plan), random));
            var r := P.Parsed(f, ifindex, iface, reverse);
            B.Buildable(f, ifindex, iface, o, h[j].templates) <==>
              && r.Success? && c.variants[plan] > 0 && B.Wanted(o) in h[i].templates
              && h[i].templates[B.Wanted(o)].len <= PAYLOAD_MAX
              && B.HeaderBytes(r.value) + B.TransportBytes(r.value) + h[i].templates[B.Wanted(o)].len <= iface.mtu
  {
    hide P.Parsed, G.HistoryOk, L.Request, B.HeaderBytes, B.TransportBytes;
    L.FoundExactly(h, i, m, j, ttl, plan, random);
    var c := h[m].configs[h[i].active];
    var o := B.Order(reverse, ttl, c.generation, L.Request(c, L.EmitWord(ttl, plan), random));
    assert B.Wanted(o) == L.BuilderKey(c.generation, o.pick);
  }
}
