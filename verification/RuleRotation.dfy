/** The round-robin that pins each new connection to a payload rule (ebpf/bpf/tcp.h:71-90). */
module RuleRotation {
  import opened Bytes
  import opened Abi

  datatype Rules = Rules(ruleMap: seq<u32>, count: u32)

  /** What the configuration reader publishes: up to three distinct enabled rules. */
  predicate Published(r: Rules) {
    && 1 <= r.count <= RULES_MAX && |r.ruleMap| == RULES_MAX
    && (forall i :: 0 <= i < r.count ==> r.ruleMap[i] < RULES_MAX)
    && (forall i, j :: 0 <= i < j < r.count ==> r.ruleMap[i] != r.ruleMap[j])
  }

  function Index(count: u32, cursor: u64): nat {
    var i := cursor % U32;
    if count <= 1 then 0 else if count == 2 then i % 2 else i % 3
  }

  function Chosen(r: Rules, cursor: u64): u32
    requires |r.ruleMap| == RULES_MAX
  {
    if r.count == 0 then 0
    else
      var rule := r.ruleMap[Index(r.count, cursor)];
      if rule >= RULES_MAX then 0 else rule
  }

  class Rotation {
    var cursor: u64

    constructor ()
      ensures cursor == 0
    {
      cursor := 0;
    }

    method NextRule(r: Rules) returns (rule: u32)
      requires |r.ruleMap| == RULES_MAX
      modifies this
      ensures rule == Chosen(r, old(cursor))
      ensures cursor == if r.count == 0 then old(cursor) else (old(cursor) + 1) % U64
    {
      if r.count == 0 { return 0; }
      var i := cursor % U32;
      cursor := (cursor + 1) % U64;
      if r.count == 1 {
        rule := r.ruleMap[0];
      } else if r.count == 2 {
        rule := r.ruleMap[i % 2];
      } else if i % 3 == 0 {
        rule := r.ruleMap[0];
      } else if i % 3 == 1 {
        rule := r.ruleMap[1];
      } else {
        rule := r.ruleMap[2];
      }
      if rule >= RULES_MAX { rule := 0; }
    }
  }

  /** How many of `m` consecutive pinnings, starting at a cursor value, get the rule. */
  function Share(r: Rules, cursor: nat, m: nat, rule: u32): nat
    requires |r.ruleMap| == RULES_MAX
  {
    if m == 0 then 0
    else Share(r, cursor, m - 1, rule) + (if Chosen(r, (cursor + m - 1) % U64) == rule then 1 else 0)
  }

  /** How many numbers below `n` leave remainder `k`. */
  function Below(n: nat, count: nat, k: nat): nat
    requires k < count
  {
    if n % count > k then n / count + 1 else n / count
  }

  lemma BelowNext(n: nat, count: nat, k: nat)
    requires k < count <= 3
    ensures Below(n + 1, count, k) == Below(n, count, k) + (if n % count == k then 1 else 0)
  {
    if count == 1 {
    } else if count == 2 {
    } else {
    }
  }

  lemma {:induction false} IndexIs(count: u32, high: nat, n: nat)
    requires 1 <= count <= 3 && high * U32 + n < U64 && (n < U32 || count <= 2)
    ensures Index(count, high * U32 + n) == n % count
  {
    var x := high * U32 + n;
    if n < U32 {
      assert x / U32 == high && x % U32 == n;
    } else if count == 2 {
      EvenWrap(x);
      assert x == 2 * (high * 0x8000_0000) + n;
      ParityShift(high * 0x8000_0000, n);
    }
  }

  lemma ParityShift(a: nat, n: nat)
    ensures (2 * a + n) % 2 == n % 2
  {
  }

  lemma {:induction false} EvenWrap(x: nat)
    ensures (x % U32) % 2 == x % 2
  {
    var (d, r) := (x / U32, x % U32);
    assert x == 2 * (d * 0x8000_0000) + r;
    ParityShift(d * 0x8000_0000, r);
  }

  lemma {:induction false} ShareCounts(r: Rules, high: nat, start: nat, m: nat, k: nat)
    requires Published(r) && k < r.count
    requires start + m <= U32 || r.count <= 2
    requires high * U32 + start + m <= U64
    ensures Share(r, high * U32 + start, m, r.ruleMap[k]) == Below(start + m, r.count, k) - Below(start, r.count, k)
    decreases m
  {
    hide Chosen, Below, Published;
    if m == 0 {
    } else {
      var n := start + m - 1;
      ShareCounts(r, high, start, m - 1, k);
      CountIs(r);
      BelowNext(n, r.count, k);
      ChosenAt(r, high, n, k);
      assert high * U32 + start + m - 1 == high * U32 + n;
    }
  }

  lemma CountIs(r: Rules)
    requires Published(r)
    ensures 1 <= r.count <= 3 && |r.ruleMap| == RULES_MAX
  {
  }

  lemma {:induction false} ChosenAt(r: Rules, high: nat, n: nat, k: nat)
    requires Published(r) && k < r.count && high * U32 + n < U64 && (n < U32 || r.count <= 2)
    ensures Chosen(r, (high * U32 + n) % U64) == r.ruleMap[k] <==> n % r.count == k
  {
    hide Index, Chosen;
    IndexIs(r.count, high, n);
    SmallMod(high * U32 + n);
    ChosenIs(r, high * U32 + n, n % r.count, k);
  }

  lemma SmallMod(x: nat)
    requires x < U64
    ensures x % U64 == x
  {
  }

  lemma {:induction false} ChosenIs(r: Rules, cursor: u64, i: nat, k: nat)
    requires Published(r) && Index(r.count, cursor) == i < r.count && k < r.count
    ensures Chosen(r, cursor) == r.ruleMap[k] <==> i == k
  {
    if i < k {
      assert r.ruleMap[i] != r.ruleMap[k];
    } else if k < i {
      assert r.ruleMap[k] != r.ruleMap[i];
    }
  }

  /**
   Fairness: any run of consecutive pinnings that does not cross the 32-bit wrap of the
   cursor gives each of the `k` enabled rules the floor or the ceiling of its share.
   One or two rules share fairly across the wrap as well. The cursor is split into its
   high and low words.
   */
  lemma {:induction false} FairShare(r: Rules, high: nat, start: nat, m: nat, k: nat)
    requires Published(r) && k < r.count
    requires start + m <= U32 || r.count <= 2
    requires high * U32 + start + m <= U64
    ensures m / r.count <= Share(r, high * U32 + start, m, r.ruleMap[k]) <= (m + r.count - 1) / r.count
  {
    ShareCounts(r, high, start, m, k);
    hide Share;
    BelowDifference(start, m, r.count, k);
  }

  lemma {:induction false} BelowDifference(start: nat, m: nat, count: nat, k: nat)
    requires k < count <= 3
    ensures m / count <= Below(start + m, count, k) - Below(start, count, k) <= (m + count - 1) / count
  {
    if count == 1 {
    } else if count == 2 {
      var (a, b) := (start / 2, (start + m) / 2);
    } else {
      var (a, b) := (start / 3, (start + m) / 3);
    }
  }

  // ---------- across the wrap of the low word ----------

  /** The next connection gets the same rule exactly with one rule, or with three where the low word wraps. */
  lemma {:induction false} RepeatsExactly(r: Rules, cursor: u64)
    requires Published(r)
    ensures Chosen(r, cursor) == Chosen(r, (cursor + 1) % U64)
       <==> r.count == 1 || (r.count == 3 && cursor % U32 == U32 - 1)
  {
    hide Chosen, Index, Published;
    CountIs(r);
    var next := (cursor + 1) % U64;
    IndexBelow(r.count, next);
    IndexBelow(r.count, cursor);
    ChosenIs(r, cursor, Index(r.count, cursor), Index(r.count, next));
    ChosenIs(r, next, Index(r.count, next), Index(r.count, next));
    NextIndex(r.count, cursor);
  }

  lemma IndexBelow(count: u32, cursor: u64)
    requires 1 <= count <= 3
    ensures Index(count, cursor) < count
  {
  }

  lemma NextIndex(count: u32, cursor: u64)
    requires 1 <= count <= 3
    ensures Index(count, cursor) == Index(count, (cursor + 1) % U64)
       <==> count == 1 || (count == 3 && cursor % U32 == U32 - 1)
  {
    LowNext(cursor);
  }

  lemma LowNext(cursor: u64)
    ensures (cursor + 1) % U64 % U32 == if cursor % U32 == U32 - 1 then 0 else cursor % U32 + 1
  {
    var (high, low) := (cursor / U32, cursor % U32);
    if low == U32 - 1 {
      assert cursor + 1 == (high + 1) * U32;
    } else {
      assert cursor + 1 == high * U32 + (low + 1);
    }
  }

  /** How many cursors below `n` select index `k` of three, in full turns of the low word and a rest. */
  function Turned(n: nat, k: nat): nat
    requires k < 3
  {
    n / U32 * Below(U32, 3, k) + Below(n % U32, 3, k)
  }

  lemma {:induction false} TurnedNext(n: nat, k: nat)
    requires n < U64 && k < 3
    ensures Turned(n + 1, k) == Turned(n, k) + if Index(3, n) == k then 1 else 0
  {
    hide Below;
    var (high, low) := (n / U32, n % U32);
    BelowNext(low, 3, k);
    if low == U32 - 1 {
      assert n + 1 == (high + 1) * U32;
      assert (n + 1) / U32 == high + 1 && (n + 1) % U32 == 0;
      assert Below(0, 3, k) == 0 by { BelowNone(k); }
      assert (high + 1) * Below(U32, 3, k) == high * Below(U32, 3, k) + Below(U32, 3, k);
    } else {
      assert n + 1 == high * U32 + (low + 1);
      assert (n + 1) / U32 == high && (n + 1) % U32 == low + 1;
    }
  }

  lemma BelowNone(k: nat)
    requires k < 3
    ensures Below(0, 3, k) == 0
  {
  }

  /** The share of each of three rules in any window, wraps included. */
  lemma {:induction false} ShareOfThree(r: Rules, cursor: nat, m: nat, k: nat)
    requires Published(r) && r.count == 3 && k < 3 && cursor + m <= U64
    ensures Share(r, cursor, m, r.ruleMap[k]) == Turned(cursor + m, k) - Turned(cursor, k)
    decreases m
  {
    hide Chosen, Turned, Index, Published;
    if m > 0 {
      var last := cursor + m - 1;
      ShareOfThree(r, cursor, m - 1, k);
      TurnedNext(last, k);
      SmallMod(last);
      IndexBelow(3, last);
      ChosenIs(r, last, Index(3, last), k);
    }
  }

  /** Every enabled rule gets the floor or the ceiling of its share. */
  predicate Fair(r: Rules, cursor: nat, m: nat)
    requires Published(r)
  {
    forall k :: 0 <= k < r.count ==> m / r.count <= Share(r, cursor, m, r.ruleMap[k]) <= (m + r.count - 1) / r.count
  }

  /**
   Windows that three rules share fairly: those without a wrap; those with one wrap where the pinnings
   before it or after it, modulo 3, are 0 or both are 2; those with two where both are 0.
   */
  predicate FairWindow(cursor: nat, m: nat) {
    var (wraps, before, after) := ((cursor + m) / U32 - cursor / U32, U32 - cursor % U32, (cursor + m) % U32);
    || wraps == 0
    || (wraps == 1 && (before % 3 == 0 || after % 3 == 0 || (before % 3 == 2 && after % 3 == 2)))
    || (wraps == 2 && before % 3 == 0 && after % 3 == 0)
  }

  lemma {:induction false} TurnedIs(n: nat)
    ensures var (t, q, v) := (n / U32, n % U32 / 3, n % U32 % 3);
            && n == t * U32 + 3 * q + v
            && Turned(n, 0) == t * 1431655766 + q + (if v > 0 then 1 else 0)
            && Turned(n, 1) == t * 1431655765 + q + (if v > 1 then 1 else 0)
            && Turned(n, 2) == t * 1431655765 + q
  {
  }

  predicate FloorOrCeiling(share: int, m: nat) { m / 3 <= share <= (m + 2) / 3 }

  /** Fairness by the number of wraps and the remainders, modulo 3, of the low words at both ends. */
  predicate FairTurns(t: int, u: nat, v: nat) {
    t == 0 || (t == 1 && (u == 1 || v == 0 || (u == 2 && v == 2))) || (t == 2 && u == 1 && v == 0)
  }

  /** The excess of the first rule over the others, in the turns and remainders at both ends. */
  lemma FairOfThree(t: nat, u: nat, v: nat, base: int, m: nat)
    requires u < 3 && v < 3 && m == 3 * base + t + v - u
    ensures FloorOrCeiling(base + t + (if v > 0 then 1 else 0) - (if u > 0 then 1 else 0), m)
            && FloorOrCeiling(base + (if v > 1 then 1 else 0) - (if u > 1 then 1 else 0), m)
            && FloorOrCeiling(base, m)
       <==> FairTurns(t, u, v)
  {
    var q := m / 3;
    assert m == 3 * q + m % 3;
    if t > 3 {
    } else if t == 0 {
    } else if t == 1 {
    } else if t == 2 {
    }
  }

  /** What fairness says for three rules, in turns and remainders. */
  lemma {:induction false} ThreeShares(r: Rules, cursor: nat, m: nat)
    requires Published(r) && r.count == 3 && cursor + m <= U64
    ensures Fair(r, cursor, m) <==> FairWindow(cursor, m)
  {
    hide Share, Published, FairWindow;
    CountIs(r);
    var (s0, s1, s2) := (Share(r, cursor, m, r.ruleMap[0]), Share(r, cursor, m, r.ruleMap[1]),
        Share(r, cursor, m, r.ruleMap[2]));
    SharesAre(r, cursor, m);
    WindowIs(cursor, m);
    assert Fair(r, cursor, m) <==> FloorOrCeiling(s0, m) && FloorOrCeiling(s1, m) && FloorOrCeiling(s2, m);
  }

  lemma {:induction false} SharesAre(r: Rules, cursor: nat, m: nat)
    requires Published(r) && r.count == 3 && cursor + m <= U64
    ensures |r.ruleMap| == 3
    ensures var (t, u, v) := (Turns(cursor, m), cursor % U32 % 3, (cursor + m) % U32 % 3);
            FloorOrCeiling(Share(r, cursor, m, r.ruleMap[0]), m) && FloorOrCeiling(Share(r, cursor, m, r.ruleMap[1]), m)
            && FloorOrCeiling(Share(r, cursor, m, r.ruleMap[2]), m)
            <==> FairTurns(t, u, v)
  {
    hide Share, Turned, Published;
    CountIs(r);
    ShareOfThree(r, cursor, m, 0);
    ShareOfThree(r, cursor, m, 1);
    ShareOfThree(r, cursor, m, 2);
    TurnedDifference(cursor, m);
    hide FloorOrCeiling, FairTurns, Turns, Base;
    FairOfThree(Turns(cursor, m), cursor % U32 % 3, (cursor + m) % U32 % 3, Base(cursor, m), m);
  }

  /** Turns of the low word completed in a window, and what the third rule gets. */
  function Turns(cursor: nat, m: nat): int { (cursor + m) / U32 - cursor / U32 }

  function Base(cursor: nat, m: nat): int {
    Turns(cursor, m) * 1431655765 + (cursor + m) % U32 / 3 - cursor % U32 / 3
  }

  lemma TurnedDifference(cursor: nat, m: nat)
    ensures var (t, base, u, v) := (Turns(cursor, m), Base(cursor, m), cursor % U32 % 3, (cursor + m) % U32 % 3);
            && t >= 0 && m == 3 * base + t + v - u
            && Turned(cursor + m, 0) - Turned(cursor, 0)
                == base + t + (if v > 0 then 1 else 0) - (if u > 0 then 1 else 0)
            && Turned(cursor + m, 1) - Turned(cursor, 1) == base + (if v > 1 then 1 else 0) - (if u > 1 then 1 else 0)
            && Turned(cursor + m, 2) - Turned(cursor, 2) == base
  {
    hide Turned;
    TurnedIs(cursor);
    TurnedIs(cursor + m);
    TurnsGrow(cursor, m);
  }

  lemma TurnsGrow(cursor: nat, m: nat)
    ensures (cursor + m) / U32 >= cursor / U32
  {
  }

  lemma WindowIs(cursor: nat, m: nat)
    ensures FairWindow(cursor, m)
       <==> FairTurns(Turns(cursor, m), cursor % U32 % 3, (cursor + m) % U32 % 3)
  {
    BeforeWrap(cursor % U32);
    TurnsGrow(cursor, m);
  }

  /**
   Fairness, exactly: one or two rules share every window fairly, three rules exactly the fair windows.
   Any window of the 64-bit cursor is allowed.
   */
  lemma {:induction false} FairExactly(r: Rules, cursor: nat, m: nat)
    requires Published(r) && cursor + m <= U64
    ensures Fair(r, cursor, m) <==> r.count <= 2 || FairWindow(cursor, m)
  {
    hide Share, Published, Turned;
    CountIs(r);
    if r.count <= 2 {
      var (high, low) := (cursor / U32, cursor % U32);
      assert cursor == high * U32 + low;
      forall k | 0 <= k < r.count
        ensures m / r.count <= Share(r, cursor, m, r.ruleMap[k]) <= (m + r.count - 1) / r.count
      {
        FairShare(r, high, low, m, k);
      }
    } else {
      ThreeShares(r, cursor, m);
    }
  }

  lemma BeforeWrap(low: u32)
    ensures (U32 - low) % 3 == if low % 3 == 0 then 1 else if low % 3 == 1 then 0 else 2
  {
    var q := low / 3;
    assert U32 - low == 3 * (1431655765 - q) + 1 - low % 3;
  }

  /** The first input that shows it: two connections in a row at the wrap get the first of three rules. */
  lemma WrapRepeatsARule()
    ensures var r := Rules([0, 1, 2], 3); Published(r) && Share(r, U32 - 1, 2, 0) == 2 && !Fair(r, U32 - 1, 2)
  {
    var r := Rules([0, 1, 2], 3);
    hide Share;
    assert |r.ruleMap| == RULES_MAX && r.ruleMap[0] == 0;
    FairExactly(r, U32 - 1, 2);
    ShareOfThree(r, U32 - 1, 2, 0);
  }
}
