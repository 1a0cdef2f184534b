/**
 The TCP trigger on a real packet (ebpf/bpf/tcp.h:91-142): the verdict on the options, which the flow
 takes as an input, is the one of the option rewrite.
 */
module TcpTrigger {
  import opened Bytes
  import opened Common
  import opened Abi
  import opened Checksum
  import opened Packets
  import opened SocketBuffer
  import opened TcpOptions
  import opened OptionsRewrite
  import opened TcpFlow

  /** How the packet is handled: the direction, the time, and whether Fast Open options are stripped. */
  datatype Arrival = Arrival(c: TcpFlow.Config, strip: bool, ingress: bool, now: u64)

  predicate Segment(b: seq<byte>, p: Packet) {
    20 <= p.hlen <= 60 && p.l4 + p.hlen <= |b| && Read16(b, p.l4 + 16) == p.checksum
  }

  /** What the parser hands to the trigger is a segment. */
  lemma ParsedSegment(f: Frame, ifindex: u32, iface: Interface, ingress: bool)
    requires Parsed(f, ifindex, iface, ingress).Success?
    ensures var p := Parsed(f, ifindex, iface, ingress).value; p.key.protocol == 6 ==> Segment(f.bytes, p)
  {
    ParsedBounds(f, ifindex, iface, ingress);
    hide Parsed;
  }

  /** The verdict on the options: a SYN's are rewritten, a SYN-ACK's only read. */
  predicate Refused(b: seq<byte>, p: Packet, a: Arrival, faults: Faults)
    requires Segment(b, p)
  {
    var v := Walk(OptionBytes(b, p.l4, p.hlen), Control(p.flags) == 0x02 && a.strip);
    !v.Kept? || (v.changed && (faults.pull || faults.store || faults.checksum))
  }

  /** The packet as the flow sees it. */
  function EventOf(b: seq<byte>, p: Packet, a: Arrival, faults: Faults): Event
    requires Segment(b, p)
  {
    Event(a.c, a.ingress, p.flags, p.seqno, p.ack, p.bytes, p.ttl, Refused(b, p, a, faults), a.now)
  }

  /** What the trigger leaves of the packet: a counted SYN may have lost its Fast Open options. */
  function Left(b: seq<byte>, p: Packet, a: Arrival, faults: Faults): seq<byte>
    requires Segment(b, p)
  {
    var v := Walk(OptionBytes(b, p.l4, p.hlen), Control(p.flags) == 0x02 && a.strip);
    if Counts(EventOf(b, p, a, faults)) && v.Kept? && v.changed && !Refused(b, p, a, faults)
    then Replaced(b, p.l4, p.hlen, v.bytes) else b
  }

  /** A SYN-ACK, from which the fakes are cloned, is left as it is. */
  lemma SynAckLeft(b: seq<byte>, p: Packet, a: Arrival, faults: Faults)
    requires Segment(b, p) && IsSynAck(EventOf(b, p, a, faults))
    ensures Left(b, p, a, faults) == b
  {
    hide Walk, Refused;
    SynIsNotSynAck(EventOf(b, p, a, faults));
  }

  /** Where the options decide: on a SYN that counts and on a SYN-ACK without data. */
  predicate Decides(e: Event) { Counts(e) || (IsSynAck(e) && e.bytes == 0) }

  lemma RefusedUnused(f: Option<Flow>, e: Event, x: bool, cursor: u64)
    requires |e.c.rules.ruleMap| == RULES_MAX && !Decides(e)
    ensures Fires(f, e.(refused := x)) == Fires(f, e) && Next(f, e.(refused := x), cursor) == Next(f, e, cursor)
  {
  }

  method ReadOptions(skb: Skb, p: Packet, a: Arrival, faults: Faults) returns (refused: bool)
    requires Segment(skb.bytes, p)
    modifies skb`bytes
    ensures Decides(EventOf(old(skb.bytes), p, a, faults)) ==> refused == Refused(old(skb.bytes), p, a, faults)
    ensures skb.bytes == Left(old(skb.bytes), p, a, faults)
  {
    hide Walk, Replaced, Control;
    VerdictIndependent(OptionBytes(skb.bytes, p.l4, p.hlen));
    assert Control(p.flags) == 0x02 ==> Control(p.flags) != 0x12;
    refused := false;
    if Control(p.flags) == 0x02 {
      if if a.ingress then a.c.passive else a.c.active {
        var ok := Options(skb, p, a.strip, faults);
        refused := !ok;
      }
    } else if Control(p.flags) == 0x12 && p.bytes == 0 {
      var ok := Options(skb, p, false, faults);
      refused := !ok;
    }
  }

  /** `tcp_trigger`: the options first, then the flow under its lock. */
  method TriggerOn<K>(table: FlowTable<K>, key: K, skb: Skb, p: Packet, a: Arrival, faults: Faults)
    returns (emit: bool, ttl: u32, rule: u32)
    requires |a.c.rules.ruleMap| == RULES_MAX && Segment(skb.bytes, p)
    modifies table, table.rotation, skb`bytes
    ensures var (f, e) := (old(table.Entry(key)), EventOf(old(skb.bytes), p, a, faults));
            && emit == Fires(f, e)
            && (emit ==> ttl == HopEstimate(f.value, e) && rule == Pinned(f.value))
            && table.Entry(key) == Next(f, e, old(table.rotation.cursor))
    ensures forall other :: other != key ==> (other in table.flows <==> other in old(table.flows))
    ensures forall other :: other != key && other in table.flows ==> table.flows[other] == old(table.flows)[other]
    ensures skb.bytes == Left(old(skb.bytes), p, a, faults)
  {
    hide Left, Next, Fires, Refused, Decides, Control;
    ghost var (b, f, cursor) := (skb.bytes, table.Entry(key), table.rotation.cursor);
    var refused := ReadOptions(skb, p, a, faults);
    var e := Event(a.c, a.ingress, p.flags, p.seqno, p.ack, p.bytes, p.ttl, refused, a.now);
    ghost var seen := EventOf(b, p, a, faults);
    assert e == seen.(refused := refused);
    if !Decides(seen) { RefusedUnused(f, seen, refused, cursor); }
    emit, ttl, rule := table.Trigger(key, e);
  }

  /** The options of the SYN that opened a generation and of the SYN-ACK a batch answers are in order. */
  predicate Clean(b: seq<byte>, p: Packet)
    requires Segment(b, p)
  {
    var list := OptionBytes(b, p.l4, p.hlen);
    forall k :: k in Starts(list, 0) && k < |list| ==> !BadAt(list, k)
  }

  lemma {:induction false} AcceptedClean(b: seq<byte>, p: Packet, a: Arrival, faults: Faults)
    requires Segment(b, p) && !Refused(b, p, a, faults)
    ensures Clean(b, p)
  {
    hide Walk, Starts, BadAt;
    var list := OptionBytes(b, p.l4, p.hlen);
    assert list[0..] == list;
    RefusedExactly(list, 0, Control(p.flags) == 0x02 && a.strip);
  }

  /** A SYN-ACK without data is refused exactly if its options are not in order. */
  lemma {:induction false} SynAckRefusedExactly(b: seq<byte>, p: Packet, a: Arrival, faults: Faults)
    requires Segment(b, p) && Control(p.flags) == 0x12
    ensures Refused(b, p, a, faults) <==> !Clean(b, p)
  {
    hide Walk, Starts, BadAt;
    var list := OptionBytes(b, p.l4, p.hlen);
    assert list[0..] == list;
    RefusedExactly(list, 0, false);
    VerdictIndependent(list);
  }

  /** No batch fires on a handshake whose SYN or SYN-ACK carries malformed or authenticating options. */
  lemma {:induction false} BatchOnCleanOptions(r: TcpFlow.Run, i: nat, b: seq<byte>, p: Packet, a: Arrival,
        faults: Faults,
      b0: seq<byte>, p0: Packet, a0: Arrival, faults0: Faults)
    requires Plausible(r) && i < |r.es| && Batch(r, i) && Segment(b, p) && Segment(b0, p0)
    requires r.es[i] == EventOf(b, p, a, faults) && r.es[Generation(r, i)] == EventOf(b0, p0, a0, faults0)
    ensures Clean(b, p) && Clean(b0, p0)
  {
    hide Refused, Clean, Generation, SynData, Batches, Elapsed, Control;
    HandshakeBatch(r, i);
    AcceptedClean(b, p, a, faults);
    var g := Generation(r, i);
    assert !Silences(r, g, g);
    AcceptedClean(b0, p0, a0, faults0);
  }
}
