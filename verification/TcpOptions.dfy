/**
 TCP options (ebpf/bpf/tcp.h:5-70): the scan that rejects malformed or authenticated
 lists and turns Fast Open options into NOPs, and the rewrite of the packet around it.
 */
module TcpOptions {
  import opened Bytes

  const EOL: byte := 0
  const NOP: byte := 1
  const MD5: byte := 19
  const AO: byte := 29
  const FAST_OPEN: byte := 34

  datatype Verdict = Malformed | Authenticated | Kept(bytes: seq<byte>, changed: bool)

  function Nops(n: nat): (r: seq<byte>)
    ensures |r| == n && forall k :: 0 <= k < n ==> r[k] == NOP
  {
    seq(n, _ => NOP)
  }

  function Prepend(head: seq<byte>, changed: bool, v: Verdict): Verdict {
    if v.Kept? then Kept(head + v.bytes, changed || v.changed) else v
  }

  /** An option that is not a single byte must have a length that fits the list. */
  predicate Fits(s: seq<byte>)
    requires |s| > 0
  {
    |s| >= 2 && 2 <= s[1] <= |s|
  }

  /** The list read option by option (section 3.1 of RFC 9293). */
  function Walk(s: seq<byte>, strip: bool): (v: Verdict)
    ensures v.Kept? ==> |v.bytes| == |s|
    decreases |s|
  {
    if |s| == 0 || s[0] == EOL then Kept(s, false)
    else if s[0] == NOP then Prepend([NOP], false, Walk(s[1..], strip))
    else if !Fits(s) then Malformed
    else if s[0] == MD5 || s[0] == AO then Authenticated
    else if s[0] == FAST_OPEN && strip then Prepend(Nops(s[1]), true, Walk(s[s[1]..], strip))
    else Prepend(s[..s[1]], false, Walk(s[s[1]..], strip))
  }

  // ---------- what the walk means ----------

  /** Where the options of a list begin, up to its end-of-list option. */
  function Starts(s: seq<byte>, at: nat): set<nat>
    decreases |s|
  {
    if |s| == 0 || s[0] == EOL then {}
    else if s[0] == NOP then {at} + Starts(s[1..], at + 1)
    else if !Fits(s) then {at}
    else {at} + Starts(s[s[1]..], at + s[1])
  }

  predicate BadAt(s: seq<byte>, k: nat)
    requires k < |s|
  {
    s[k] != EOL && s[k] != NOP && (!Fits(s[k..]) || s[k] == MD5 || s[k] == AO)
  }

  /** Position `k` lies in a whole Fast Open option of the list. */
  predicate InFastOpen(s: seq<byte>, k: nat)
    decreases |s|
  {
    if |s| == 0 || s[0] == EOL then false
    else if s[0] == NOP then k > 0 && InFastOpen(s[1..], k - 1)
    else if !Fits(s) then false
    else if k < s[1] then s[0] == FAST_OPEN
    else InFastOpen(s[s[1]..], k - s[1])
  }

  lemma {:induction false} StartsBounds(s: seq<byte>, at: nat)
    ensures forall k :: k in Starts(s, at) ==> at <= k < at + |s|
    decreases |s|
  {
    if |s| == 0 || s[0] == EOL {
    } else if s[0] == NOP {
      StartsBounds(s[1..], at + 1);
    } else if Fits(s) {
      StartsBounds(s[s[1]..], at + s[1]);
    }
  }

  /** A list is refused exactly when an option in it is malformed or authenticates the segment. */
  lemma {:induction false} RefusedExactly(whole: seq<byte>, at: nat, strip: bool)
    requires at <= |whole|
    ensures (forall k :: k in Starts(whole[at..], at) ==> at <= k < |whole|)
    ensures Walk(whole[at..], strip).Kept? <==> forall k :: k in Starts(whole[at..], at) ==> !BadAt(whole, k)
    decreases |whole| - at
  {
    var s := whole[at..];
    StartsBounds(s, at);
    if |s| == 0 || s[0] == EOL {
    } else if s[0] == NOP {
      assert s[1..] == whole[at + 1..];
      RefusedExactly(whole, at + 1, strip);
      assert at in Starts(s, at) && !BadAt(whole, at);
    } else {
      assert at in Starts(s, at);
      if Fits(s) {
        var next := at + s[1];
        assert s[s[1]..] == whole[next..];
        RefusedExactly(whole, next, strip);
        assert Starts(s, at) == {at} + Starts(whole[next..], next);
      } else {
        assert BadAt(whole, at);
      }
    }
  }

  /** Every whole Fast Open option becomes NOPs and no other byte changes. */
  lemma {:induction false} StripsExactly(s: seq<byte>, k: nat)
    requires Walk(s, true).Kept? && k < |s|
    ensures Walk(s, true).bytes[k] == if InFastOpen(s, k) then NOP else s[k]
    decreases |s|
  {
    if |s| == 0 || s[0] == EOL {
    } else if s[0] == NOP {
      if k > 0 {
        StripsExactly(s[1..], k - 1);
      }
    } else {
      var n := s[1];
      if k >= n {
        StripsExactly(s[n..], k - n);
      }
    }
  }

  /** Without stripping nothing changes, and stripping never changes the verdict. */
  lemma {:induction false} VerdictIndependent(s: seq<byte>)
    ensures Walk(s, false).Kept? ==> Walk(s, false) == Kept(s, false)
    ensures if Walk(s, false).Kept? then Walk(s, true).Kept? else Walk(s, true) == Walk(s, false)
    ensures Walk(s, true).Kept? && !Walk(s, true).changed ==> Walk(s, true).bytes == s
    decreases |s|
  {
    if |s| == 0 || s[0] == EOL {
    } else if s[0] == NOP {
      VerdictIndependent(s[1..]);
      assert s == [NOP] + s[1..];
    } else if Fits(s) {
      VerdictIndependent(s[s[1]..]);
      assert s == s[..s[1]] + s[s[1]..];
    }
  }

  lemma {:induction false} WalkNops(n: nat, s: seq<byte>, strip: bool)
    ensures Walk(Nops(n) + s, strip) == Prepend(Nops(n), false, Walk(s, strip))
    decreases n
  {
    var v := Walk(s, strip);
    if n == 0 {
      assert Nops(0) + s == s;
      assert v.Kept? ==> Nops(0) + v.bytes == v.bytes;
    } else {
      var longer := Nops(n) + s;
      assert longer[0] == NOP && longer[1..] == Nops(n - 1) + s;
      assert Walk(longer, strip) == Prepend([NOP], false, Walk(Nops(n - 1) + s, strip));
      WalkNops(n - 1, s, strip);
      hide Walk;
      PrependTwice([NOP], false, Nops(n - 1), false, v);
      assert [NOP] + Nops(n - 1) == Nops(n);
    }
  }

  /** A second pass changes nothing. */
  lemma {:induction false} SecondPass(s: seq<byte>)
    requires Walk(s, true).Kept?
    ensures Walk(Walk(s, true).bytes, true) == Kept(Walk(s, true).bytes, false)
    decreases |s|
  {
    var r := Walk(s, true).bytes;
    if |s| == 0 || s[0] == EOL {
    } else if s[0] == NOP {
      SecondPass(s[1..]);
      assert r[1..] == Walk(s[1..], true).bytes;
    } else {
      var n := s[1];
      var rest := Walk(s[n..], true).bytes;
      SecondPass(s[n..]);
      if s[0] == FAST_OPEN {
        assert r == Nops(n) + rest;
        WalkNops(n, rest, true);
      } else {
        assert r == s[..n] + rest;
        assert r[0] == s[0] && r[1] == s[1] && r[n..] == rest && r[..n] == s[..n];
      }
    }
  }

  /** One option of the walk, put together with what was done before it. */
  lemma {:induction false} WalkOnce(done: seq<byte>, changed: bool, s: seq<byte>, strip: bool)
    ensures |s| > 0 && s[0] == NOP ==>
              Prepend(done, changed, Walk(s, strip)) == Prepend(done + [NOP], changed, Walk(s[1..], strip))
    ensures |s| > 0 && s[0] != EOL && s[0] != NOP && Fits(s) && s[0] != MD5 && s[0] != AO ==>
              Prepend(done, changed, Walk(s, strip)) ==
              if s[0] == FAST_OPEN && strip then Prepend(done + Nops(s[1]), true, Walk(s[s[1]..], strip))
              else Prepend(done + s[..s[1]], changed, Walk(s[s[1]..], strip))
    ensures |s| > 0 && s[0] != EOL && s[0] != NOP && !Fits(s) ==> Prepend(done, changed, Walk(s, strip)) == Malformed
    ensures |s| > 0 && Fits(s) && (s[0] == MD5 || s[0] == AO)
        ==> Prepend(done, changed, Walk(s, strip)) == Authenticated
  {
    if |s| > 0 && s[0] == NOP {
      PrependTwice(done, changed, [NOP], false, Walk(s[1..], strip));
    } else if |s| > 0 && s[0] != EOL && Fits(s) {
      PrependTwice(done, changed, Nops(s[1]), true, Walk(s[s[1]..], strip));
      PrependTwice(done, changed, s[..s[1]], false, Walk(s[s[1]..], strip));
    }
  }

  // ---------- the index-driven scan ----------

  /**
   Before step `i`: `done` is the final form of the options that begin before `i`;
   the bytes before `i` have it already, the others are still the original ones.
   */
  ghost predicate Inv(list: seq<byte>, n: nat, strip: bool, replacement: seq<byte>, next: nat, nopUntil: nat,
        changed: bool,
                      i: nat, done: seq<byte>)
    requires |list| == 40 && |replacement| == 40 && n <= 40
  {
    && i <= next <= n && |done| == next
    && Walk(list[..n], strip) == Prepend(done, changed, Walk(list[next..n], strip))
    && replacement == done[..i] + list[i..]
    && done[i..] == (if i < nopUntil then Nops(next - i) else list[i..next])
    && (i < nopUntil ==> nopUntil == next) && nopUntil <= next
  }

  lemma {:induction false} InsideOption(list: seq<byte>, n: nat, strip: bool, replacement: seq<byte>, next: nat,
        nopUntil: nat,
                                        changed: bool, i: nat, done: seq<byte>)
    requires |list| == 40 && |replacement| == 40 && n <= 40 && i < next
    requires Inv(list, n, strip, replacement, next, nopUntil, changed, i, done)
    ensures Inv(list, n, strip, if i < nopUntil then replacement[i := NOP] else replacement, next, nopUntil, changed,
        i + 1, done)
  {
    hide Walk, Prepend;
    assert done[i] == if i < nopUntil then NOP else list[i];
    assert done[i + 1..] == done[i..][1..];
    assert done[..i + 1] == done[..i] + [done[i]];
    assert list[i..] == [list[i]] + list[i + 1..];
    if i < nopUntil {
      assert Nops(next - i)[1..] == Nops(next - i - 1);
    }
  }

  lemma {:induction false} Advance(list: seq<byte>, n: nat, strip: bool, replacement: seq<byte>, nopUntil: nat,
        changed: bool,
                                   i: nat, len: nat, done: seq<byte>, piece: seq<byte>)
    requires |list| == 40 && |replacement| == 40 && n <= 40 && |done| == i && |piece| == len && 0 < len && i + len <= n
    requires Walk(list[..n], strip) == Prepend(done + piece, changed, Walk(list[i + len..n], strip))
    requires replacement == done + [piece[0]] + list[i + 1..]
    requires piece[1..] == (if i + 1 < nopUntil then Nops(len - 1) else list[i + 1..i + len])
    requires nopUntil <= i + len && (i + 1 < nopUntil ==> nopUntil == i + len)
    ensures Inv(list, n, strip, replacement, i + len, nopUntil, changed, i + 1, done + piece)
  {
    hide Walk, Prepend;
    assert (done + piece)[..i + 1] == done + [piece[0]];
    assert (done + piece)[i + 1..] == piece[1..];
  }

  /** An option that starts at `i` and takes `len` bytes. */
  lemma {:induction false} AtOption(list: seq<byte>, n: nat, strip: bool, replacement: seq<byte>, nopUntil: nat,
        changed: bool,
                                    i: nat, len: nat, done: seq<byte>)
    requires |list| == 40 && |replacement| == 40 && n <= 40 && i < n && list[i] != EOL
    requires if list[i] == NOP then len == 1
             else list[i] != MD5 && list[i] != AO && Fits(list[i..n]) && len == list[i + 1]
    requires Inv(list, n, strip, replacement, i, nopUntil, changed, i, done)
    ensures i + len <= n
    ensures if list[i] == FAST_OPEN && strip
            then Inv(list, n, strip, replacement[i := NOP], i + len, i + len, true, i + 1, done + Nops(len))
            else Inv(list, n, strip, replacement, i + len, nopUntil, changed, i + 1, done + list[i..i + len])
  {
    var rest := list[i..n];
    WalkOnce(done, changed, rest, strip);
    hide Walk, Prepend;
    assert rest[len..] == list[i + len..n] && rest[..len] == list[i..i + len];
    assert done[..i] == done;
    assert list[i..] == [list[i]] + list[i + 1..];
    if list[i] == FAST_OPEN && strip {
      assert Nops(len)[1..] == Nops(len - 1);
      assert replacement[i := NOP] == done + [NOP] + list[i + 1..];
      hide Inv;
      Advance(list, n, strip, replacement[i := NOP], i + len, true, i, len, done, Nops(len));
    } else {
      var piece := list[i..i + len];
      assert piece[0] == list[i] && piece[1..] == list[i + 1..i + len];
      assert replacement == done + [piece[0]] + list[i + 1..];
      assert rest == list[i..n];
      if list[i] == NOP {
        assert piece == [NOP] && rest[1..] == list[i + 1..n];
      }
      assert nopUntil <= i + 1;
      hide Inv;
      Advance(list, n, strip, replacement, nopUntil, changed, i, len, done, piece);
    }
  }

  lemma {:induction false} Refuses(list: seq<byte>, n: nat, strip: bool, replacement: seq<byte>, nopUntil: nat,
        changed: bool,
                                   i: nat, done: seq<byte>)
    requires |list| == 40 && |replacement| == 40 && n <= 40 && i < n && list[i] != EOL && list[i] != NOP
    requires Inv(list, n, strip, replacement, i, nopUntil, changed, i, done)
    ensures !Fits(list[i..n]) ==> Walk(list[..n], strip) == Malformed
    ensures Fits(list[i..n]) && (list[i] == MD5 || list[i] == AO) ==> Walk(list[..n], strip) == Authenticated
  {
    WalkOnce(done, changed, list[i..n], strip);
  }

  lemma {:induction false} Finishes(list: seq<byte>, n: nat, strip: bool, replacement: seq<byte>, nopUntil: nat,
        changed: bool,
                                    i: nat, done: seq<byte>)
    requires |list| == 40 && |replacement| == 40 && n <= 40 && (i == n || (i < n && list[i] == EOL))
    requires Inv(list, n, strip, replacement, i, nopUntil, changed, i, done)
    ensures Walk(list[..n], strip) == Kept(replacement[..n], changed)
  {
    assert replacement[..n] == done + list[i..n];
  }

  /** The context the 40 scan steps share. */
  class OptionScan {
    const list: seq<byte>
    const replacement: array<byte>
    const n: nat
    const strip: bool
    var next: nat
    var nopUntil: nat
    var changed: bool
    var rejected: nat

    constructor (options: seq<byte>, strip: bool)
      requires |options| <= 40
      ensures Shaped() && fresh(replacement)
      ensures list == options + Zeros(40 - |options|) && n == |options| && this.strip == strip
      ensures replacement[..] == list
      ensures next == 0 && nopUntil == 0 && !changed && rejected == 0
    {
      var padded := options + Zeros(40 - |options|);
      var r := new byte[40](k requires 0 <= k < 40 => padded[k]);
      list, replacement, n, this.strip := padded, r, |options|, strip;
      next, nopUntil, changed, rejected := 0, 0, false, 0;
      new;
      assert replacement[..] == list;
    }

    ghost predicate Shaped() {
      |list| == 40 && replacement.Length == 40 && n <= 40
    }

    ghost predicate Before(i: nat, done: seq<byte>)
      requires Shaped()
      reads this, replacement
    {
      rejected == 0 && Inv(list, n, strip, replacement[..], next, nopUntil, changed, i, done)
    }

    /** What a stopped scan has found out. */
    ghost predicate Concluded()
      requires Shaped()
      reads this, replacement
    {
      Walk(list[..n], strip) ==
        if rejected == 0 then Kept(replacement[..n], changed) else if rejected == 2 then Authenticated else Malformed
    }

    /** One scan step; `true` stops the loop. */
    method Step(i: nat, ghost done: seq<byte>) returns (stop: bool, ghost done': seq<byte>)
      requires Shaped() && i < 40 && Before(i, done)
      modifies this, replacement
      ensures if stop then Concluded() else i < n && Before(i + 1, done')
      ensures forall k :: n <= k < 40 ==> replacement[k] == old(replacement[k])
    {
      hide Inv, Walk;
      done' := done;
      InvBounds(list, n, strip, replacement[..], next, nopUntil, changed, i, done);
      if i >= n {
        Finishes(list, n, strip, replacement[..], nopUntil, changed, i, done);
        return true, done;
      }
      if i < next {
        InsideOption(list, n, strip, replacement[..], next, nopUntil, changed, i, done);
        if i < nopUntil { replacement[i] := NOP; }
        return false, done;
      }
      var kind := list[i];
      if kind == EOL {
        Finishes(list, n, strip, replacement[..], nopUntil, changed, i, done);
        return true, done;
      }
      if kind == NOP {
        AtOption(list, n, strip, replacement[..], nopUntil, changed, i, 1, done);
        next := i + 1;
        return false, done + list[i..i + 1];
      }
      Refuses(list, n, strip, replacement[..], nopUntil, changed, i, done);
      if i + 1 >= n {
        rejected := 1;
        return true, done;
      }
      var len := list[i + 1];
      assert list[i..n][1] == len;
      if len < 2 || i + len > n {
        rejected := 1;
        return true, done;
      }
      if kind == MD5 || kind == AO {
        rejected := 2;
        return true, done;
      }
      AtOption(list, n, strip, replacement[..], nopUntil, changed, i, len, done);
      next := i + len;
      done' := done + list[i..i + len];
      if kind == FAST_OPEN && strip {
        nopUntil := next;
        replacement[i] := NOP;
        changed := true;
        done' := done + Nops(len);
      }
      return false, done';
    }
  }

  lemma {:induction false} InvBounds(list: seq<byte>, n: nat, strip: bool, replacement: seq<byte>, next: nat,
        nopUntil: nat,
                                     changed: bool, i: nat, done: seq<byte>)
    requires |list| == 40 && |replacement| == 40 && n <= 40
    requires Inv(list, n, strip, replacement, next, nopUntil, changed, i, done)
    ensures i <= next <= n
  {
  }

  lemma PrependTwice(a: seq<byte>, x: bool, b: seq<byte>, y: bool, v: Verdict)
    ensures Prepend(a, x, Prepend(b, y, v)) == Prepend(a + b, x || y, v)
  {
    if v.Kept? {
      assert a + (b + v.bytes) == a + b + v.bytes;
    }
  }

  /** The bounded loop over the scan step refines the walk, for every list that fits a TCP header. */
  method Scan(options: seq<byte>, strip: bool) returns (s: OptionScan)
    requires |options| <= 40
    ensures s.Shaped() && s.n == |options| && s.list == options + Zeros(40 - |options|)
    ensures s.replacement[s.n..] == s.list[s.n..]
    ensures s.rejected == 0 <==> Walk(options, strip).Kept?
    ensures s.rejected == 2 <==> Walk(options, strip) == Authenticated
    ensures s.rejected == 0 ==> Walk(options, strip) == Kept(s.replacement[..s.n], s.changed)
  {
    hide Inv;
    s := new OptionScan(options, strip);
    assert s.list[..s.n] == options;
    ghost var done: seq<byte> := [];
    Starting(s.list, s.n, strip);
    var i, stop := 0, false;
    while i < 40 && !stop
      invariant 0 <= i <= 40 && s.Shaped() && fresh(s) && fresh(s.replacement)
      invariant !stop ==> s.Before(i, done)
      invariant stop ==> s.Concluded()
      invariant forall k :: s.n <= k < 40 ==> s.replacement[k] == s.list[k]
      decreases 40 - i, !stop
    {
      stop, done := s.Step(i, done);
      i := i + 1;
    }
    if !stop {
      InvBounds(s.list, s.n, strip, s.replacement[..], s.next, s.nopUntil, s.changed, i, done);
      Finishes(s.list, s.n, strip, s.replacement[..], s.nopUntil, s.changed, i, done);
    }
  }

  lemma {:induction false} Starting(list: seq<byte>, n: nat, strip: bool)
    requires |list| == 40 && n <= 40
    ensures Inv(list, n, strip, list, 0, 0, false, 0, [])
  {
    assert list[0..n] == list[..n];
    if Walk(list[..n], strip).Kept? {
      assert [] + Walk(list[..n], strip).bytes == Walk(list[..n], strip).bytes;
    }
  }
}
