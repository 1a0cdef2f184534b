/** The option rewrite inside a packet (ebpf/bpf/tcp.h:46-70), and its checksum. */
module OptionsRewrite {
  import opened Bytes
  import opened Common
  import opened Checksum
  import opened Packets
  import opened SocketBuffer
  import opened TcpOptions
  import opened Builder
  import opened BuilderChecksum

  function OptionBytes(b: seq<byte>, l4: nat, hlen: nat): (r: seq<byte>)
    requires 20 <= hlen <= 60 && l4 + hlen <= |b|
    ensures |r| == hlen - 20
  {
    b[l4 + 20..l4 + hlen]
  }

  function Padded(s: seq<byte>): (r: seq<byte>)
    requires |s| <= 40
    ensures |r| == 40
  {
    s + Zeros(40 - |s|)
  }

  /** What is added to the complement of the checksum field when `before` becomes `after`. */
  function OptionDelta(before: seq<byte>, after: seq<byte>): nat
    requires |before| <= 40 && |after| <= 40
  {
    WordSum(Complement(Padded(before))) + WordSum(Padded(after))
  }

  /** The segment with its options replaced and its checksum adjusted. */
  function Replaced(b: seq<byte>, l4: nat, hlen: nat, r: seq<byte>): seq<byte>
    requires 20 <= hlen <= 60 && l4 + hlen <= |b| && |r| == hlen - 20
  {
    var check := ReplaceByDiff(Read16(b, l4 + 16), Fold(OptionDelta(OptionBytes(b, l4, hlen), r)));
    Splice(Splice(b, l4 + 20, r), l4 + 16, Be16(check))
  }

  /** Faults the kernel helpers may report: copy-on-write, the store, the checksum update. */
  datatype Faults = Faults(pull: bool, store: bool, checksum: bool)

  /**
   Parses the complete list before any write, then commits the rewrite or leaves the
   packet as it was. The restoring writes are taken to succeed.
   */
  method Options(skb: Skb, p: Packet, strip: bool, faults: Faults) returns (ok: bool)
    requires 20 <= p.hlen <= 60 && p.l4 + p.hlen <= |skb.bytes| && Read16(skb.bytes, p.l4 + 16) == p.checksum
    modifies skb`bytes
    ensures var v := Walk(OptionBytes(old(skb.bytes), p.l4, p.hlen), strip);
            && (ok <==> v.Kept? && (v.changed ==> !faults.pull && !faults.store && !faults.checksum))
            && skb.bytes == (if ok && v.changed then Replaced(old(skb.bytes), p.l4, p.hlen, v.bytes)
                else old(skb.bytes))
  {
    hide Walk, Splice, Fold, WordSum, Be16, ReplaceByDiff, Padded;
    var n := p.hlen - 20;
    var list := OptionBytes(skb.bytes, p.l4, p.hlen);
    if n == 0 {
      EmptyList(list, strip);
      return true;
    }
    var s := Scan(list, strip);
    if s.rejected != 0 { return false; }
    if !s.changed { return true; }
    if faults.pull { return false; }
    var r := s.replacement[..n];
    PaddedIs(s.list, s.replacement[..], list, r);
    var delta := CsumDiff(s.list, s.replacement[..], 0);
    if faults.store { return false; }
    ok := Commit(skb, p, list, r, delta, faults.checksum);
  }

  /** The writes: the new options, then the checksum field; or, if that fails, both as they were. */
  method Commit(skb: Skb, p: Packet, list: seq<byte>, r: seq<byte>, delta: u32, fault: bool) returns (ok: bool)
    requires 20 <= p.hlen <= 60 && p.l4 + p.hlen <= |skb.bytes| && Read16(skb.bytes, p.l4 + 16) == p.checksum
    requires list == OptionBytes(skb.bytes, p.l4, p.hlen) && |r| == |list| && Fold(delta) == Fold(OptionDelta(list, r))
    modifies skb`bytes
    ensures ok == !fault
    ensures skb.bytes == if ok then Replaced(old(skb.bytes), p.l4, p.hlen, r) else old(skb.bytes)
  {
    hide *;
    ghost var b := skb.bytes;
    AdjustedIs(b, p, list, r);
    var stored := skb.Store(p.l4 + 20, r);
    if fault {
      Undo(skb, p, b, list, r);
      return false;
    }
    AdjustedAt(b, p, list, r, delta);
    skb.ReplaceDiff(p.l4 + 16, delta, false);
    return true;
  }

  /** Puts the old options and the old checksum back. */
  method Undo(skb: Skb, p: Packet, ghost b: seq<byte>, list: seq<byte>, r: seq<byte>)
    requires p.l4 + 20 + |r| <= |b| && list == b[p.l4 + 20..p.l4 + 20 + |r|] && Read16(b, p.l4 + 16) == p.checksum
    requires skb.bytes == Splice(b, p.l4 + 20, r)
    modifies skb`bytes
    ensures skb.bytes == b
  {
    hide *;
    var restored := skb.Store(p.l4 + 20, list);
    restored := skb.Store(p.l4 + 16, Be16(p.checksum));
    Restored(b, p.l4, r, list, p.checksum);
  }

  /** The replaced segment, in the packet's own terms. */
  ghost function Adjusted(b: seq<byte>, p: Packet, list: seq<byte>, r: seq<byte>): seq<byte>
    requires p.l4 + 20 + |r| <= |b| && |list| == |r| <= 40
  {
    Splice(Splice(b, p.l4 + 20, r), p.l4 + 16, Be16(ReplaceByDiff(p.checksum, Fold(OptionDelta(list, r)))))
  }

  /** What the helper stores in the checksum field is what the adjusted segment holds there. */
  lemma AdjustedAt(b: seq<byte>, p: Packet, list: seq<byte>, r: seq<byte>, delta: u32)
    requires p.l4 + 20 + |r| <= |b| && |list| == |r| <= 40 && Fold(delta) == Fold(OptionDelta(list, r))
    requires Read16(b, p.l4 + 16) == p.checksum
    ensures var stored := Splice(b, p.l4 + 20, r);
            var field := Read16(stored, p.l4 + 16);
            Splice(stored, p.l4 + 16, Be16(Mangled(false, field, ReplaceByDiff(field, delta))))
              == Adjusted(b, p, list, r)
  {
    hide Splice, Fold, Be16, ReplaceByDiff, OptionDelta, Read16;
    StoredChecksum(b, p.l4, r);
    ReplaceByDiffDepends(p.checksum, delta, Fold(OptionDelta(list, r)));
  }

  lemma AdjustedIs(b: seq<byte>, p: Packet, list: seq<byte>, r: seq<byte>)
    requires 20 <= p.hlen <= 60 && p.l4 + p.hlen <= |b| && Read16(b, p.l4 + 16) == p.checksum
    requires list == OptionBytes(b, p.l4, p.hlen) && |r| == |list|
    ensures |r| == p.hlen - 20 && list == b[p.l4 + 20..p.l4 + 20 + |r|]
    ensures Replaced(b, p.l4, p.hlen, r) == Adjusted(b, p, list, r)
  {
    hide Splice, Fold, Be16, ReplaceByDiff, OptionDelta, Read16;
  }

  lemma PaddedIs(before40: seq<byte>, after40: seq<byte>, before: seq<byte>, after: seq<byte>)
    requires |before| == |after| <= 40 && |before40| == |after40| == 40 && before40 == before + Zeros(40 - |before|)
    requires after == after40[..|before|] && after40[|before|..] == before40[|before|..]
    ensures before40 == Padded(before) && after40 == Padded(after)
  {
    assert after40 == after + after40[|before|..];
    assert before40[|before|..] == Zeros(40 - |before|);
  }

  lemma EmptyList(list: seq<byte>, strip: bool)
    requires |list| == 0
    ensures Walk(list, strip) == Kept(list, false)
  {
  }

  lemma {:induction false} StoredChecksum(b: seq<byte>, l4: nat, r: seq<byte>)
    requires l4 + 20 + |r| <= |b|
    ensures Read16(Splice(b, l4 + 20, r), l4 + 16) == Read16(b, l4 + 16)
  {
  }

  lemma {:induction false} Restored(b: seq<byte>, l4: nat, r: seq<byte>, list: seq<byte>, checksum: u16)
    requires l4 + 20 + |r| <= |b| && list == b[l4 + 20..l4 + 20 + |r|] && checksum == Read16(b, l4 + 16)
    ensures Splice(Splice(Splice(b, l4 + 20, r), l4 + 20, list), l4 + 16, Be16(checksum)) == b
  {
    assert Splice(Splice(b, l4 + 20, r), l4 + 20, list) == b;
    assert Be16(checksum) == b[l4 + 16..l4 + 18];
  }

  // ---------- the verdict on the checksum ----------

  /** Only the checksum field of what the parser extracts changes. */
  lemma {:induction false} ReplacedLayers(f: Frame, mode: Mode, y: Layers, r: seq<byte>)
    requires LayersOf(f, mode) == Success(y) && y.network.protocol == 6 && |r| == y.transport.hlen - 20
    ensures 20 <= y.transport.hlen <= 60 && y.network.l4 + y.transport.hlen <= |f.bytes|
    ensures var c := Replaced(f.bytes, y.network.l4, y.transport.hlen, r);
            LayersOf(f.(bytes := c), mode) ==
              Success(y.(transport := y.transport.(checksum := Read16(c, y.network.l4 + 16))))
  {
    TcpLayers(f, mode, y);
    var (b, c) := (f.bytes, Replaced(f.bytes, y.network.l4, y.transport.hlen, r));
    var (g, l4) := (f.(bytes := c), y.network.l4);
    Untouched(b, l4, y.transport.hlen, r);
    hide LinkOf, NetworkOf, TcpOf, Replaced, LayersOf;
    PrefixAgrees(f, g, mode, y.link, y.network);
    TcpAgrees(b, c, l4, y.network.end);
    TransportIsTcp(c, y.network, y.link.envelope);
    TransportIsTcp(b, y.network, y.link.envelope);
    LayersBack(g, mode, y.(transport := y.transport.(checksum := Read16(c, l4 + 16))));
  }

  lemma {:induction false} TcpLayers(f: Frame, mode: Mode, y: Layers)
    requires LayersOf(f, mode) == Success(y) && y.network.protocol == 6
    ensures 20 <= y.transport.hlen <= 60 && y.network.l4 + y.transport.hlen <= y.network.end <= |f.bytes| <= 4096
    ensures y.network.l4 + 20 <= |f.bytes| && y.network.end <= y.link.envelope && !f.gso
    ensures LinkOf(f, mode) == Success(y.link) && NetworkOf(f.bytes, y.link, mode) == Success(y.network)
    ensures TcpOf(f.bytes, y.network.l4, y.network.end) == Success(y.transport)
    ensures y.transport.checksum == Read16(f.bytes, y.network.l4 + 16)
  {
    hide LinkOf, NetworkOf, TcpOf;
  }

  lemma {:induction false} LayersBack(g: Frame, mode: Mode, y: Layers)
    requires !g.gso && |g.bytes| <= 4096 && LinkOf(g, mode) == Success(y.link)
    requires NetworkOf(g.bytes, y.link, mode) == Success(y.network)
    requires TransportOf(g.bytes, y.network, y.link.envelope) == Success(y.transport)
    ensures LayersOf(g, mode) == Success(y)
  {
    hide LinkOf, NetworkOf, TransportOf;
  }

  lemma {:induction false} TransportIsTcp(b: seq<byte>, n: Network, envelope: nat)
    requires n.protocol == 6 && n.l4 <= n.end <= envelope
    ensures TransportOf(b, n, envelope) == TcpOf(b, n.l4, n.end)
  {
    hide TcpOf;
  }

  lemma {:induction false} Untouched(b: seq<byte>, l4: nat, hlen: nat, r: seq<byte>)
    requires 20 <= hlen <= 60 && l4 + hlen <= |b| && |r| == hlen - 20
    ensures var c := Replaced(b, l4, hlen, r);
            && |c| == |b| && c[..l4] == b[..l4] && c[l4 + 4..l4 + 14] == b[l4 + 4..l4 + 14]
            && Read16(c, l4) == Read16(b, l4) && Read16(c, l4 + 2) == Read16(b, l4 + 2)
  {
    hide Fold, ReplaceByDiff, Be16, WordSum;
  }

  lemma {:induction false} SpliceWithin(b: seq<byte>, from: nat, end: nat, at: nat, part: seq<byte>)
    requires from + at + |part| <= end <= |b|
    ensures Splice(b, from + at, part)[from..end] == Splice(b[from..end], at, part)
  {
  }

  /** The sum over the segment moves by what the options and the field move. */
  lemma {:induction false} ReplacedSum(b: seq<byte>, l4: nat, hlen: nat, end: nat, r: seq<byte>, check: u16)
    requires 20 <= hlen <= 60 && hlen % 4 == 0 && l4 + hlen <= end <= |b| && |r| == hlen - 20
    ensures var (list, c) := (OptionBytes(b, l4, hlen), Splice(Splice(b, l4 + 20, r), l4 + 16, Be16(check)));
            WordSum(c[l4..end]) == WordSum(b[l4..end]) - WordSum(list) + WordSum(r) - Read16(b, l4 + 16) + check
  {
    hide WordSum, Be16;
    var s := b[l4..end];
    var list := OptionBytes(b, l4, hlen);
    var t := Splice(s, 20, r);
    var d := Splice(b, l4 + 20, r);
    SpliceWithin(b, l4, end, 20, r);
    SpliceWithin(d, l4, end, 16, Be16(check));
    assert s[20..20 + |r|] == list;
    assert t[16..18] == [b[l4 + 16], b[l4 + 17]];
    hide Splice;
    WordSumSplice(s, 20, r);
    WordSumSplice(t, 16, Be16(check));
    WordSumPair(b[l4 + 16], b[l4 + 17]);
    WordSumBe16(check);
  }

  lemma {:induction false} DeltaResidue(before: seq<byte>, after: seq<byte>, field: u16)
    requires |before| <= 40 && |after| <= 40
    ensures Congruent(ReplaceByDiff(field, Fold(OptionDelta(before, after))),
        field - (WordSum(after) - WordSum(before)))
  {
    hide Fold, ReplaceByDiff, Congruent, WordSum;
    var delta := OptionDelta(before, after);
    WordSumComplement(Padded(before));
    WordSumPadded(before, 40 - |before|);
    WordSumPadded(after, 40 - |after|);
    CongruentRefl(WordSum(after));
    CongruentSum(WordSum(Complement(Padded(before))), 0 - WordSum(before) as int, WordSum(after), WordSum(after));
    FoldResidue(delta);
    CongruentTrans(Fold(delta), delta, WordSum(after) - WordSum(before));
    CongruentRefl(field);
    CongruentSum(field, field, Fold(delta), WordSum(after) - WordSum(before));
    ReplaceByDiffResidue(field, Fold(delta));
    CongruentTrans(ReplaceByDiff(field, Fold(delta)), field - Fold(delta), field - (WordSum(after) - WordSum(before)));
  }

  /** After the rewrite the TCP checksum verifies exactly when it did before. */
  lemma {:induction false} RewriteKeepsVerdict(f: Frame, mode: Mode, y: Layers, r: seq<byte>)
    requires LayersOf(f, mode) == Success(y) && y.network.protocol == 6 && |r| == y.transport.hlen - 20
    ensures 20 <= y.transport.hlen <= 60 && y.network.l4 + y.transport.hlen <= |f.bytes|
    ensures Verifies(f.(bytes := Replaced(f.bytes, y.network.l4, y.transport.hlen, r)), mode) <==> Verifies(f, mode)
  {
    hide LayersOf, LinkOf, NetworkOf, TcpOf, Fold, WordSum, ReplaceByDiff, Congruent, Splice, PseudoHeader, SegmentSum;
    var (n, hlen, b) := (y.network, y.transport.hlen, f.bytes);
    TcpLayers(f, mode, y);
    HeaderLengthAligned(b, n.l4, n.end);
    ReplacedLayers(f, mode, y, r);
    ReplacedCongruent(n, b, hlen, r);
    SegmentPositive(n, b);
    SegmentPositive(n, Replaced(b, n.l4, hlen, r));
    SameVerdict(SegmentSum(n, Replaced(b, n.l4, hlen, r)), SegmentSum(n, b));
  }

  lemma {:induction false} ReplacedCongruent(n: Network, b: seq<byte>, hlen: nat, r: seq<byte>)
    requires 20 <= hlen <= 60 && hlen % 4 == 0 && n.l4 + hlen <= n.end <= |b| && |r| == hlen - 20
    ensures Congruent(SegmentSum(n, Replaced(b, n.l4, hlen, r)), SegmentSum(n, b))
  {
    hide Fold, WordSum, ReplaceByDiff, Congruent, Splice, PseudoHeader;
    var (list, field) := (OptionBytes(b, n.l4, hlen), Read16(b, n.l4 + 16));
    var check := ReplaceByDiff(field, Fold(OptionDelta(list, r)));
    ReplacedSum(b, n.l4, hlen, n.end, r, check);
    DeltaResidue(list, r, field);
    var rest := SegmentSum(n, b) - WordSum(list) + WordSum(r) - field;
    CongruentRefl(rest);
    CongruentSum(rest, rest, check, field - (WordSum(r) - WordSum(list)));
  }

  lemma {:induction false} HeaderLengthAligned(b: seq<byte>, l4: nat, end: nat)
    requires TcpOf(b, l4, end).Success?
    ensures TcpOf(b, l4, end).value.hlen % 4 == 0
  {
  }

  lemma {:induction false} SegmentPositive(n: Network, b: seq<byte>)
    requires n.l4 <= n.end <= |b| && n.end - n.l4 < U16 && n.protocol == 6
    requires |n.source| % 2 == 0 && |n.destination| % 2 == 0
    ensures SegmentSum(n, b) > 0
  {
    PseudoHeaderSum(n.source, n.destination, n.family, n.protocol, n.end - n.l4);
  }
}
