/** Bytes, machine words and big-endian access to byte buffers. */
module Bytes {
  type byte = b: int | 0 <= b < 256
  type u16 = x: int | 0 <= x < 0x1_0000
  type u32 = x: int | 0 <= x < 0x1_0000_0000
  type u64 = x: int | 0 <= x < 0x1_0000_0000_0000_0000

  const U16: int := 0x1_0000
  const U32: int := 0x1_0000_0000
  const U64: int := 0x1_0000_0000_0000_0000

  function Read16(s: seq<byte>, i: nat): u16
    requires i + 2 <= |s|
  {
    s[i] as int * 256 + s[i + 1] as int
  }

  function Read32(s: seq<byte>, i: nat): u32
    requires i + 4 <= |s|
  {
    Read16(s, i) as int * 0x1_0000 + Read16(s, i + 2) as int
  }

  /** The two bytes the 16-bit store leaves behind: the value is truncated. */
  function Be16(n: nat): (r: seq<byte>)
    ensures |r| == 2
  {
    [(n / 256) % 256, n % 256]
  }

  function Be32(n: nat): (r: seq<byte>)
    ensures |r| == 4
  {
    Be16(n / 0x1_0000) + Be16(n)
  }

  function Zeros(n: nat): (z: seq<byte>)
    ensures |z| == n && forall k :: 0 <= k < n ==> z[k] == 0
  {
    seq(n, _ => 0)
  }

  /** A copy of `part` over `s` starting at `i`. */
  function Splice(s: seq<byte>, i: nat, part: seq<byte>): (r: seq<byte>)
    requires i + |part| <= |s|
    ensures |r| == |s|
    ensures forall k :: 0 <= k < |r| ==> r[k] == if i <= k < i + |part| then part[k - i] else s[k]
  {
    s[..i] + part + s[i + |part|..]
  }

  lemma Be16Reads(n: u16)
    ensures Read16(Be16(n), 0) == n
  {
  }

  lemma {:induction false} SpliceOutside(s: seq<byte>, at: nat, part: seq<byte>, i: nat, j: nat)
    requires at + |part| <= |s| && i <= j <= |s| && (j <= at || at + |part| <= i)
    ensures Splice(s, at, part)[i..j] == s[i..j]
  {
  }

  lemma {:induction false} SpliceInside(s: seq<byte>, at: nat, part: seq<byte>)
    requires at + |part| <= |s|
    ensures Splice(s, at, part)[at..at + |part|] == part
  {
  }

  /** A word read out of a slice is the word read in place. */
  lemma {:induction false} ReadSlice(s: seq<byte>, i: nat, word: seq<byte>)
    requires i + 2 <= |s| && s[i..i + 2] == word && |word| == 2
    ensures Read16(s, i) == Read16(word, 0)
  {
    assert s[i] == word[0] && s[i + 1] == word[1];
  }

  lemma {:induction false} ReadBe16(s: seq<byte>, i: nat, n: u16)
    requires i + 2 <= |s| && s[i..i + 2] == Be16(n)
    ensures Read16(s, i) == n
  {
    ReadSlice(s, i, Be16(n));
    Be16Reads(n);
  }

  /** An in-place copy: the memcpy of the sources. */
  method CopyInto(a: array<byte>, at: nat, part: seq<byte>)
    requires at + |part| <= a.Length
    modifies a
    ensures a[..] == Splice(old(a[..]), at, part)
  {
    for k := 0 to |part|
      invariant a[..] == old(a[..])[..at] + part[..k] + old(a[..])[at + k..]
    {
      a[at + k] := part[k];
      assert part[..k + 1] == part[..k] + [part[k]];
    }
    assert part[..|part|] == part;
  }

  method Write16(a: array<byte>, at: nat, n: nat)
    requires at + 2 <= a.Length
    modifies a
    ensures a[..] == Splice(old(a[..]), at, Be16(n))
  {
    a[at] := (n / 256) % 256;
    a[at + 1] := n % 256;
  }

  method Write32(a: array<byte>, at: nat, n: nat)
    requires at + 4 <= a.Length
    modifies a
    ensures a[..] == Splice(old(a[..]), at, Be32(n))
  {
    Write16(a, at, n / 0x1_0000);
    Write16(a, at + 2, n);
  }
}
