/** A packet in the kernel, and the helpers that read and write it. */
module SocketBuffer {
  import opened Bytes
  import opened Common
  import opened Checksum
  import opened Packets

  /** The helpers fail exactly when the kernel's bounds checks would, or on the fault they are given. */
  class Skb {
    var bytes: seq<byte>
    const offload: Option<Tag>
    const gso: bool

    constructor (f: Frame)
      ensures View() == f
    {
      bytes, offload, gso := f.bytes, f.offload, f.gso;
    }

    function View(): Frame
      reads this`bytes
    {
      Frame(bytes, offload, gso)
    }

    method Store(at: nat, part: seq<byte>) returns (ok: bool)
      modifies this`bytes
      ensures ok <==> at + |part| <= |old(bytes)|
      ensures bytes == if ok then Splice(old(bytes), at, part) else old(bytes)
    {
      ok := at + |part| <= |bytes|;
      if ok {
        bytes := Splice(bytes, at, part);
      }
    }

    /** Shortens or lengthens the packet; what appears at the end is not promised. */
    method ChangeTail(n: nat, fault: bool) returns (ok: bool)
      modifies this`bytes
      ensures ok == !fault
      ensures !ok ==> bytes == old(bytes)
      ensures ok ==> |bytes| == n
      ensures ok ==> forall k :: 0 <= k < n && k < |old(bytes)| ==> bytes[k] == old(bytes)[k]
    {
      ok := !fault;
      if ok {
        bytes := if n <= |bytes| then bytes[..n] else bytes + Zeros(n - |bytes|);
      }
    }

    method ReplaceDiff(at: nat, diff: u32, mark: bool)
      requires at + 2 <= |bytes|
      modifies this`bytes
      ensures var field := Read16(old(bytes), at);
              bytes == Splice(old(bytes), at, Be16(Mangled(mark, field, ReplaceByDiff(field, diff))))
    {
      var field := Read16(bytes, at);
      bytes := Splice(bytes, at, Be16(Mangled(mark, field, ReplaceByDiff(field, diff))));
    }

    method ReplaceFour(at: nat, from: u32, to: u32, mark: bool)
      requires at + 2 <= |bytes|
      modifies this`bytes
      ensures var field := Read16(old(bytes), at);
              bytes == Splice(old(bytes), at, Be16(Mangled(mark, field, Replace4(field, from, to))))
    {
      var field := Read16(bytes, at);
      bytes := Splice(bytes, at, Be16(Mangled(mark, field, Replace4(field, from, to))));
    }
  }
}
