/**
 The Internet checksum as the kernel helpers compute it, against one's-complement
 sums over unbounded integers (RFC 1071 sections 1 and 2, RFC 1624 section 3).
 Words are read in network order; section 2(B) of RFC 1071 makes the choice free.
 */
module Checksum {
  import opened Bytes

  /** The one's-complement value of a sum: 0 only for 0, otherwise 1..0xffff. */
  function Fold(n: nat): (r: u16)
    ensures r == 0 <==> n == 0
    ensures (r - n) % 0xffff == 0
  {
    if n == 0 then 0 else (n - 1) % 0xffff + 1
  }

  predicate Congruent(a: int, b: int) {
    (a - b) % 0xffff == 0
  }

  lemma CongruentSum(a: int, b: int, c: int, d: int)
    requires Congruent(a, b) && Congruent(c, d)
    ensures Congruent(a + c, b + d) && Congruent(a - c, b - d)
  {
    var (x, y) := (a - b, c - d);
    assert (x + y) % 0xffff == 0 && (x - y) % 0xffff == 0;
    assert (a + c) - (b + d) == x + y && (a - c) - (b - d) == x - y;
  }

  lemma CongruentTrans(a: int, b: int, c: int)
    requires Congruent(a, b) && Congruent(b, c)
    ensures Congruent(a, c) && Congruent(c, a)
  {
    var (x, y) := (a - b, b - c);
    assert (x + y) % 0xffff == 0 && (-x - y) % 0xffff == 0;
    assert a - c == x + y && c - a == -x - y;
  }

  /** A one's-complement value stands for its number modulo 65535. */
  lemma FoldResidue(n: nat)
    ensures Congruent(Fold(n), n) && Congruent(n, Fold(n))
    ensures Fold(n) == 0 <==> n == 0
  {
    CongruentTrans(Fold(n), n, n);
  }

  lemma FoldUnique(n: nat, r: u16)
    requires Congruent(r, n) && (r == 0 <==> n == 0)
    ensures r == Fold(n)
  {
    CongruentTrans(Fold(n), n, n);
    CongruentTrans(r, n, Fold(n));
    var d: int := r as int - Fold(n) as int;
    assert d % 0xffff == 0 && -0xffff < d < 0xffff;
  }

  lemma FoldAdd(a: nat, b: nat, c: nat)
    requires Fold(a) == Fold(b)
    ensures Fold(a + c) == Fold(b + c)
  {
    CongruentTrans(Fold(a), a, a);
    CongruentTrans(a, Fold(a), b);
    CongruentSum(a, b, c, c);
    CongruentTrans(Fold(a + c), a + c, b + c);
    FoldUnique(b + c, Fold(a + c));
  }

  /** A sum verifies when it is all ones (section 1 of RFC 1071). */
  lemma AllOnes(n: nat)
    ensures Fold(n) == 0xffff <==> n > 0 && Congruent(n, 0)
  {
  }

  /** Big-endian 16-bit words, an odd last byte padded with zero. */
  function WordSum(s: seq<byte>): nat {
    if |s| == 0 then 0
    else if |s| == 1 then s[0] * 256
    else Read16(s, 0) + WordSum(s[2..])
  }

  lemma {:induction false} WordSumBound(s: seq<byte>)
    ensures WordSum(s) <= 0xffff * |s|
  {
    if |s| >= 2 { WordSumBound(s[2..]); }
  }

  lemma {:induction false} WordSumConcat(a: seq<byte>, b: seq<byte>)
    requires |a| % 2 == 0
    ensures WordSum(a + b) == WordSum(a) + WordSum(b)
  {
    if |a| == 0 {
      assert a + b == b;
    } else {
      assert (a + b)[2..] == a[2..] + b;
      WordSumConcat(a[2..], b);
    }
  }

  lemma {:induction false} WordSumZeros(n: nat)
    ensures WordSum(Zeros(n)) == 0
  {
    if n >= 2 {
      assert Zeros(n)[2..] == Zeros(n - 2);
      WordSumZeros(n - 2);
    }
  }

  /** Zero padding, even after an odd tail, leaves the sum unchanged. */
  lemma {:induction false} WordSumPadded(s: seq<byte>, n: nat)
    ensures WordSum(s + Zeros(n)) == WordSum(s)
  {
    if |s| == 0 {
      assert s + Zeros(n) == Zeros(n);
      WordSumZeros(n);
    } else if |s| == 1 {
      if n > 0 {
        assert (s + Zeros(n))[2..] == Zeros(n - 1);
        WordSumZeros(n - 1);
      } else {
        assert s + Zeros(n) == s;
      }
    } else {
      assert (s + Zeros(n))[2..] == s[2..] + Zeros(n);
      WordSumPadded(s[2..], n);
    }
  }

  lemma {:induction false} WordSumSplit(s: seq<byte>, i: nat)
    requires i % 2 == 0 && i <= |s|
    ensures WordSum(s) == WordSum(s[..i]) + WordSum(s[i..])
  {
    assert s == s[..i] + s[i..];
    WordSumConcat(s[..i], s[i..]);
  }

  lemma WordSumPair(x: byte, y: byte)
    ensures WordSum([x, y]) == x * 256 + y
  {
    assert [x, y][2..] == [];
  }

  /** Replacing an aligned, even part changes the sum by the difference of the parts. */
  lemma {:induction false} WordSumSplice(s: seq<byte>, i: nat, part: seq<byte>)
    requires i % 2 == 0 && |part| % 2 == 0 && i + |part| <= |s|
    ensures WordSum(Splice(s, i, part)) == WordSum(s) - WordSum(s[i..i + |part|]) + WordSum(part)
  {
    var j := i + |part|;
    var a, b, c := s[..i], s[i..j], s[j..];
    assert s == (a + b) + c;
    WordSumConcat(a + b, c);
    WordSumConcat(a, b);
    assert Splice(s, i, part) == (a + part) + c;
    WordSumConcat(a + part, c);
    WordSumConcat(a, part);
  }

  function Complement(s: seq<byte>): (r: seq<byte>)
    ensures |r| == |s|
  {
    seq(|s|, k requires 0 <= k < |s| => 255 - s[k])
  }

  lemma {:induction false} WordSumComplement(s: seq<byte>)
    requires |s| % 2 == 0
    ensures Congruent(WordSum(Complement(s)), 0 - WordSum(s) as int)
  {
    if |s| > 0 {
      assert Complement(s)[2..] == Complement(s[2..]);
      WordSumComplement(s[2..]);
    }
  }

  // ---------- 32-bit accumulators ----------

  /** End-around-carry addition of two 32-bit accumulators. */
  function CsumAdd(a: u32, b: u32): u32 {
    if a + b < U32 then a + b else a + b - U32 + 1
  }

  lemma CsumAddFolds(a: u32, b: u32)
    ensures Fold(CsumAdd(a, b)) == Fold(a + b)
    ensures Congruent(CsumAdd(a, b), a + b)
  {
    assert U32 - 1 == 0x1_0001 * 0xffff;
    assert CsumAdd(a, b) == a + b || CsumAdd(a, b) - (a + b) == -0x1_0001 * 0xffff;
    CongruentTrans(Fold(CsumAdd(a, b)), CsumAdd(a, b), a + b);
    FoldUnique(a + b, Fold(CsumAdd(a, b)));
  }

  /** A 32-bit accumulator folded to 16 bits and complemented. */
  function CsumFold(s: u32): u16 {
    var once := s % 0x1_0000 + s / 0x1_0000;
    0xffff - (once % 0x1_0000 + once / 0x1_0000)
  }

  lemma CsumFoldComplements(s: u32)
    ensures CsumFold(s) == 0xffff - Fold(s)
  {
    FoldUnique(s, 0xffff - CsumFold(s));
  }

  /**
   The builder's own folding of a 64-bit sum (ebpf/bpf/builder.bpf.c:4-8).
   The first step leaves up to 33 bits, so the two 16-bit steps are exact only below 2^32.
   */
  function FoldChecksum(sum: u64): u16 {
    var a := sum % U32 + sum / U32;
    var b := a % 0x1_0000 + a / 0x1_0000;
    var c := b % 0x1_0000 + b / 0x1_0000;
    0xffff - c % 0x1_0000
  }

  lemma FoldChecksumComplements(sum: u32)
    ensures FoldChecksum(sum) == 0xffff - Fold(sum)
  {
    FoldUnique(sum, 0xffff - FoldChecksum(sum));
  }

  /**
   bpf_csum_diff: the words of `from` complemented, then the words of `to`, on top
   of a seed. Only the one's-complement value is promised, because architectures
   return different 32-bit representatives of it.
   */
  method CsumDiff(from: seq<byte>, to: seq<byte>, seed: u32) returns (sum: u32)
    requires |from| % 4 == 0 && |to| % 4 == 0
    ensures Fold(sum) == Fold(seed + WordSum(Complement(from)) + WordSum(to))
  {
    sum := AddWords(Complement(from), seed);
    ghost var mid := sum;
    sum := AddWords(to, sum);
    FoldAdd(mid, seed + WordSum(Complement(from)), WordSum(to));
  }

  method AddWords(s: seq<byte>, seed: u32) returns (sum: u32)
    requires |s| % 4 == 0
    ensures Fold(sum) == Fold(seed + WordSum(s))
  {
    sum := seed;
    var i := 0;
    while i < |s|
      invariant i <= |s| && i % 4 == 0
      invariant Fold(sum) == Fold(seed + WordSum(s[..i]))
    {
      AddWordStep(s, i, seed, sum);
      sum := CsumAdd(sum, Read32(s, i));
      i := i + 4;
    }
    assert s[..i] == s;
  }

  lemma {:induction false} WordSumAppend(s: seq<byte>, i: nat)
    requires i % 2 == 0 && i + 2 <= |s|
    ensures WordSum(s[..i + 2]) == WordSum(s[..i]) + Read16(s, i)
  {
    assert s[..i + 2] == s[..i] + [s[i], s[i + 1]];
    WordSumConcat(s[..i], [s[i], s[i + 1]]);
    WordSumPair(s[i], s[i + 1]);
  }

  lemma {:induction false} WordSumGrows(s: seq<byte>, i: nat)
    requires i % 4 == 0 && i + 4 <= |s|
    ensures WordSum(s[..i + 4]) == WordSum(s[..i]) + Read16(s, i) + Read16(s, i + 2)
  {
    var half := 2 * (i / 4);
    assert i == 2 * half && (2 * half) % 2 == 0 && (2 * half + 2) % 2 == 0;
    WordSumAppend(s, i);
    WordSumAppend(s, i + 2);
    assert s[..i + 2 + 2] == s[..i + 4];
  }

  lemma {:induction false} AddWordStep(s: seq<byte>, i: nat, seed: u32, sum: u32)
    requires i % 4 == 0 && i + 4 <= |s|
    requires Fold(sum) == Fold(seed + WordSum(s[..i]))
    ensures Fold(CsumAdd(sum, Read32(s, i))) == Fold(seed + WordSum(s[..i + 4]))
  {
    WordSumGrows(s, i);
    AddHalves(sum, seed + WordSum(s[..i]), Read16(s, i), Read16(s, i + 2));
  }

  lemma AddHalves(sum: u32, total: nat, hi: u16, lo: u16)
    requires Fold(sum) == Fold(total)
    ensures Fold(CsumAdd(sum, hi as int * 0x1_0000 + lo as int)) == Fold(total + hi + lo)
  {
    var w: int := hi as int * 0x1_0000 + lo as int;
    var h: int := hi as int + lo as int;
    CsumAddFolds(sum, w);
    assert w - h == 0xffff * hi as int;
    FoldUnique(w, Fold(h));
    FoldAdd(sum, total, w);
    FoldAdd(w, h, total);
  }

  // ---------- bpf_l4_csum_replace on a software checksum ----------

  /** Header size 0: `diff` is added to the complement of the field. */
  function ReplaceByDiff(field: u16, diff: u32): u16 {
    CsumFold(CsumAdd(diff, U32 - 1 - field))
  }

  /** Header size 4: `from` is subtracted and `to` added. */
  function Replace4(field: u16, from: u32, to: u32): u16 {
    CsumFold(CsumAdd(CsumAdd(U32 - 1 - field, U32 - 1 - from), to))
  }

  /** BPF_F_MARK_MANGLED_0: an absent checksum stays absent, a zero result becomes 0xffff. */
  function Mangled(mark: bool, field: u16, replaced: u16): (r: u16)
    ensures mark ==> (r == 0 <==> field == 0)
    ensures !(mark && field == 0) ==> Congruent(r, replaced)
  {
    if mark && field == 0 then 0
    else if mark && replaced == 0 then 0xffff
    else replaced
  }

  lemma ComplementResidue(s: u32, n: int)
    requires Congruent(s, n)
    ensures Congruent(CsumFold(s), 0 - n)
  {
    CsumFoldComplements(s);
    CongruentTrans(Fold(s), s, n);
    CongruentSum(0xffff, 0, Fold(s), n);
  }

  lemma ReplaceByDiffResidue(field: u16, diff: u32)
    ensures Congruent(ReplaceByDiff(field, diff), field - diff)
  {
    var c: u32 := U32 - 1 - field;
    assert Congruent(U32 - 1, 0);
    CongruentSum(U32 - 1, 0, field, field);
    CsumAddFolds(diff, c);
    CongruentSum(diff, diff, c, 0 - field);
    CongruentTrans(CsumAdd(diff, c), diff + c, diff as int - field as int);
    ComplementResidue(CsumAdd(diff, c), diff as int - field as int);
  }

  lemma Replace4Residue(field: u16, from: u32, to: u32)
    ensures Congruent(Replace4(field, from, to), field + from - to)
  {
    var (c, d) := (U32 - 1 - field, U32 - 1 - from);
    assert Congruent(U32 - 1, 0);
    CongruentSum(U32 - 1, 0, field, field);
    CongruentSum(U32 - 1, 0, from, from);
    CongruentSum(c, 0 - field, d, 0 - from);
    CsumAddFolds(c, d);
    CongruentTrans(CsumAdd(c, d), c + d, 0 - field as int - from as int);
    CsumAddFolds(CsumAdd(c, d), to);
    CongruentSum(CsumAdd(c, d), 0 - field as int - from as int, to, to);
    CongruentTrans(CsumAdd(CsumAdd(c, d), to), CsumAdd(c, d) + to, to as int - field as int - from as int);
    ComplementResidue(CsumAdd(CsumAdd(c, d), to), to as int - field as int - from as int);
  }

  /** Only the one's-complement value of the difference matters. */
  lemma ReplaceByDiffDepends(field: u16, d1: u32, d2: u32)
    requires Fold(d1) == Fold(d2)
    ensures ReplaceByDiff(field, d1) == ReplaceByDiff(field, d2)
  {
    CsumFoldComplements(CsumAdd(d1, U32 - 1 - field));
    CsumFoldComplements(CsumAdd(d2, U32 - 1 - field));
    CsumAddFolds(d1, U32 - 1 - field);
    CsumAddFolds(d2, U32 - 1 - field);
    FoldAdd(d1, d2, U32 - 1 - field);
  }
}
