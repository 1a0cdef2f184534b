/** The copy budget of one WAN: a token bucket in 64-bit words (ebpf/bpf/observer.bpf.c:5-21). */
module TokenBucket {
  import opened Bytes
  import opened Common
  import opened Abi

  datatype Rate = Rate(burst: u32, rate: u32, repeat: u32)

  /** What the configuration reader accepts. */
  predicate Configured(c: Rate) {
    1 <= c.rate <= 1_000_000 && 1 <= c.repeat <= 8 && c.repeat <= c.burst <= 1_000_000
  }

  datatype Bucket = Bucket(at: u64, tokens: u64)

  datatype Outcome = Outcome(bucket: Bucket, ok: bool)

  function Wrap(n: int): u64 { n % U64 }

  function Limit(c: Rate): nat { c.burst * NS }

  function Cost(c: Rate): nat { c.repeat * NS }

  /** Tokens after the refill, in the words and with the guard of the program. */
  function Refilled(b: Bucket, c: Rate, now: u64): u64 {
    var elapsed := Wrap(now - b.at);
    var limit := Wrap(c.burst * NS);
    var tokens := if c.rate != 0 && elapsed <= limit / c.rate then Wrap(b.tokens + Wrap(elapsed * c.rate)) else limit;
    if tokens > limit then limit else tokens
  }

  function Initialized(b: Bucket, c: Rate, now: u64): Bucket {
    if b.at == 0 then Bucket(now, Wrap(c.burst * NS)) else b
  }

  function Machine(b: Bucket, c: Rate, now: u64): Outcome {
    var tokens := Refilled(Initialized(b, c, now), c, now);
    var cost := Wrap(c.repeat * NS);
    if tokens >= cost then Outcome(Bucket(now, tokens - cost), true) else Outcome(Bucket(now, tokens), false)
  }

  class Budget {
    var at: u64
    var tokens: u64

    method Reserve(c: Rate, now: u64) returns (ok: bool)
      modifies this
      ensures Outcome(Bucket(at, tokens), ok) == Machine(old(Bucket(at, tokens)), c, now)
    {
      hide Wrap;
      ok := false;
      if at == 0 {
        tokens := Wrap(c.burst * NS);
        at := now;
      }
      var elapsed := Wrap(now - at);
      var limit := Wrap(c.burst * NS);
      var filled := limit;
      if c.rate != 0 && elapsed <= limit / c.rate {
        filled := Wrap(tokens + Wrap(elapsed * c.rate));
      }
      if filled > limit { filled := limit; }
      at := now;
      tokens := filled;
      if filled >= Wrap(c.repeat * NS) {
        tokens := tokens - Wrap(c.repeat * NS);
        ok := true;
      }
    }
  }

  // ---------- the guarded words against unbounded integers ----------

  lemma Guard(limit: nat, elapsed: nat, rate: nat)
    requires rate > 0
    ensures elapsed <= limit / rate ==> elapsed * rate <= limit
    ensures elapsed > limit / rate ==> elapsed * rate > limit
  {
    var q := limit / rate;
    assert limit == q * rate + limit % rate;
    if elapsed <= q {
      assert elapsed * rate <= q * rate;
    } else {
      assert elapsed * rate >= (q + 1) * rate;
    }
  }

  lemma WrapIs(n: nat)
    requires n < U64
    ensures Wrap(n) == n
  {
  }

  /** With a clock that does not run backwards nothing overflows and the refill is the ideal one. */
  lemma RefillIsIdeal(b: Bucket, c: Rate, now: u64)
    requires Configured(c) && b.at <= now && b.tokens <= Limit(c)
    ensures Refilled(b, c, now) == Min(Limit(c), b.tokens + (now - b.at) * c.rate)
  {
    var elapsed := now - b.at;
    Guard(Limit(c), elapsed, c.rate);
    WrapIs(elapsed);
    WrapIs(c.burst * NS);
    hide Wrap;
    if elapsed <= Limit(c) / c.rate {
      var earned := elapsed * c.rate;
      WrapIs(earned);
      WrapIs(b.tokens + earned);
    }
  }

  /** A refill gives no more than the elapsed time earns. */
  predicate Honest(b: Bucket, c: Rate, now: u64) {
    Refilled(b, c, now) <= b.tokens + (if b.at <= now then (now - b.at) * c.rate else 0)
  }

  lemma {:induction false} BackwardFills(b: Bucket, c: Rate, now: u64)
    requires Configured(c) && b.tokens < Limit(c) && now < b.at
    ensures Refilled(b, c, now) > b.tokens
  {
    var elapsed := now - b.at + U64;
    assert Wrap(now - b.at) == elapsed;
    WrapIs(c.burst * NS);
    hide Wrap;
    var earned := elapsed * c.rate;
    Guard(Limit(c), elapsed, c.rate);
    if elapsed <= Limit(c) / c.rate {
      assert 1 <= earned by { assert elapsed >= 1 && c.rate >= 1; }
      WrapIs(earned);
      WrapIs(b.tokens + earned);
    }
  }

  /**
   The premise on the clock is exact: a refill is honest if and only if the clock has
   not run backwards, or the bucket was full anyway.
   */
  lemma {:induction false} HonestExactly(b: Bucket, c: Rate, now: u64)
    requires Configured(c) && b.tokens <= Limit(c)
    ensures Honest(b, c, now) <==> b.at <= now || b.tokens == Limit(c)
  {
    if b.at <= now {
      RefillIsIdeal(b, c, now);
    } else if b.tokens < Limit(c) {
      BackwardFills(b, c, now);
    } else {
      WrapIs(c.burst * NS);
    }
  }

  // ---------- whole runs ----------

  predicate Nondecreasing(times: seq<u64>) {
    (forall i :: 0 <= i < |times| ==> times[i] > 0) && forall i, j :: 0 <= i <= j < |times| ==> times[i] <= times[j]
  }

  /** The bucket after the calls at these times, starting from the zeroed map entry. */
  function After(c: Rate, times: seq<u64>): Bucket {
    if |times| == 0 then Bucket(0, 0)
    else Machine(After(c, times[..|times| - 1]), c, times[|times| - 1]).bucket
  }

  function Granted(c: Rate, times: seq<u64>, k: nat): bool
    requires k < |times|
  {
    Machine(After(c, times[..k]), c, times[k]).ok
  }

  /** Copies attempted by calls `i` to `j - 1`. */
  function Copies(attempts: seq<nat>, i: nat, j: nat): nat
    requires i <= j <= |attempts|
  {
    if i == j then 0 else Copies(attempts, i, j - 1) + attempts[j - 1]
  }

  lemma {:induction false} AfterBounds(c: Rate, times: seq<u64>)
    requires Configured(c) && Nondecreasing(times)
    ensures After(c, times).tokens <= Limit(c)
    ensures After(c, times).at == if |times| == 0 then 0 else times[|times| - 1]
  {
    if |times| > 0 {
      var (before, now) := (times[..|times| - 1], times[|times| - 1]);
      AfterBounds(c, before);
      WrapIs(c.burst * NS);
      hide Wrap;
    }
  }

  lemma {:induction false} Spending(c: Rate, b: Bucket, now: u64)
    requires Configured(c) && b.tokens <= Limit(c) && b.at <= now && now > 0
    ensures var o := Machine(b, c, now);
            && o.bucket.tokens + (if o.ok then Cost(c) else 0)
               == (if b.at == 0 then Limit(c) else Min(Limit(c), b.tokens + (now - b.at) * c.rate))
            && (o.ok <==> (if b.at == 0 then Limit(c) else Min(Limit(c), b.tokens + (now - b.at) * c.rate)) >= Cost(c))
  {
    var s := Initialized(b, c, now);
    assert Wrap(c.burst * NS) == Limit(c) && Wrap(c.repeat * NS) == Cost(c);
    RefillIsIdeal(s, c, now);
    if b.at == 0 {
      assert (now - s.at) * c.rate == 0;
    }
  }

  lemma {:induction false} WindowPotential(c: Rate, times: seq<u64>, attempts: seq<nat>, i: nat, j: nat)
    requires Configured(c) && Nondecreasing(times) && |attempts| == |times| && i < j <= |times|
    requires forall k :: 0 <= k < |times| ==> attempts[k] <= if Granted(c, times, k) then c.repeat else 0
    ensures Copies(attempts, i, j) * NS + After(c, times[..j]).tokens <= Limit(c) + c.rate * (times[j - 1] - times[i])
    decreases j
  {
    hide Machine, Refilled, Wrap, Initialized;
    var b, now := After(c, times[..j - 1]), times[j - 1];
    assert times[..j][..j - 1] == times[..j - 1];
    AfterBounds(c, times[..j - 1]);
    assert b.at <= now by {
      if j > 1 {
        assert times[..j - 1][j - 2] == times[j - 2];
      }
    }
    Spending(c, b, now);
    var o := Machine(b, c, now);
    assert After(c, times[..j]) == o.bucket;
    assert attempts[j - 1] * NS <= if o.ok then Cost(c) else 0;
    if i == j - 1 {
      assert Copies(attempts, i, j) == attempts[i];
      assert c.rate * 0 == 0;
    } else {
      WindowPotential(c, times, attempts, i, j - 1);
      assert b.at == times[j - 2];
      assert c.rate * (times[j - 2] - times[i]) + (now - times[j - 2]) * c.rate == c.rate * (now - times[i]);
    }
  }

  /**
   In any time window the copies attempted on one WAN are bounded by the burst and the
   rate: each granted call attempts at most `repeat` copies, a refused one attempts none.
   */
  lemma {:induction false} WindowBound(c: Rate, times: seq<u64>, attempts: seq<nat>, i: nat, j: nat)
    requires Configured(c) && Nondecreasing(times) && |attempts| == |times| && i < j <= |times|
    requires forall k :: 0 <= k < |times| ==> attempts[k] <= if Granted(c, times, k) then c.repeat else 0
    ensures Copies(attempts, i, j) * NS <= c.burst * NS + c.rate * (times[j - 1] - times[i])
  {
    WindowPotential(c, times, attempts, i, j);
  }

  /** The first call is granted, and so is every call after an idle time that fills the bucket. */
  lemma {:induction false} FullBucketGrants(c: Rate, times: seq<u64>, k: nat)
    requires Configured(c) && Nondecreasing(times) && k < |times|
    requires k > 0 ==> (times[k] - times[k - 1]) * c.rate >= Limit(c)
    ensures Granted(c, times, k)
  {
    AfterBounds(c, times[..k]);
    if k > 0 {
      assert times[..k][k - 1] == times[k - 1];
    }
    Spending(c, After(c, times[..k]), times[k]);
  }

  /** Two calls, the second with an older reading of the clock. */
  const OLDER: seq<u64> := [1_000_000_001, 1_000_000_000]

  lemma EmptiedOnce(c: Rate)
    requires c == Rate(2, 1000, 2)
    ensures After(c, OLDER[..1]) == Bucket(1_000_000_001, 0) && Granted(c, OLDER, 0)
  {
    assert OLDER[..1][..0] == [] && OLDER[..0] == [];
    assert Machine(After(c, []), c, 1_000_000_001) == Outcome(Bucket(1_000_000_001, 0), true);
  }

  /** An older reading looks like a long idle time and fills the bucket the first call emptied: the bound fails. */
  lemma BackwardClockRefills()
    ensures var c := Rate(2, 1000, 2);
            && Configured(c) && After(c, OLDER[..1]) == Bucket(1_000_000_001, 0)
            && Refilled(After(c, OLDER[..1]), c, OLDER[1]) == Limit(c) && !Honest(After(c, OLDER[..1]), c, OLDER[1])
            && Granted(c, OLDER, 0) && Granted(c, OLDER, 1)
            && Copies([c.repeat, c.repeat], 0, 2) * NS > c.burst * NS + c.rate
  {
    var c := Rate(2, 1000, 2);
    EmptiedOnce(c);
    assert Refilled(Bucket(1_000_000_001, 0), c, 1_000_000_000) == 2_000_000_000;
    hide After;
    assert Copies([2, 2], 0, 1) == 2;
  }
}
