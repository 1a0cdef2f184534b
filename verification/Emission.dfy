/**
 The copy budget and the request protocol put together: what one WAN's bucket grants bounds the requests its
 producers attempt, however their steps interleave (ebpf/bpf/observer.bpf.c:36, 52-64).
 */
module Emission {
  import opened Bytes
  import opened Abi
  import opened RequestProtocol
  import TB = TokenBucket

  /** A run with its steps. */
  ghost predicate Acted(states: seq<State>, acts: seq<Action>) {
    && |states| == |acts| + 1 && Init(states[0])
    && forall i :: 0 <= i < |acts| ==> Step(states[i], acts[i], states[i + 1])
  }

  /** The copies asked for by the calls of `emit` on this WAN among the steps `i` to `j - 1`, in order. */
  function Calls(acts: seq<Action>, wan: u32, i: nat, j: nat): seq<nat>
    requires i <= j <= |acts|
  {
    if i == j then []
    else
      var a := acts[j - 1];
      Calls(acts, wan, i, j - 1) + if a.DoBegin? && a.ifindex == wan then [a.copies] else []
  }

  predicate AttemptsOn(s: State, a: Action, wan: u32) {
    a.DoAttempt? && a.t in s.emitters && s.emitters[a.t].ifindex == wan
  }

  /** The requests attempted on this WAN in the steps `i` to `j - 1`. */
  function Attempts(states: seq<State>, acts: seq<Action>, wan: u32, i: nat, j: nat): nat
    requires i <= j <= |acts| < |states|
  {
    if i == j then 0
    else Attempts(states, acts, wan, i, j - 1) + if AttemptsOn(states[j - 1], acts[j - 1], wan) then 1 else 0
  }

  /** The copies a producer may still attempt on this WAN. */
  function Share(e: Emitter, wan: u32): nat { if e.ifindex == wan then e.left else 0 }

  ghost function Pick(m: map<nat, Emitter>): (t: nat)
    requires m != map[]
    ensures t in m
  {
    var t :| t in m; t
  }

  /** What all producers together may still attempt. */
  ghost function Open(m: map<nat, Emitter>, wan: u32): nat
    decreases |m|
  {
    if m == map[] then 0 else var t := Pick(m); Share(m[t], wan) + Open(m - {t}, wan)
  }

  lemma {:induction false} OpenWithout(m: map<nat, Emitter>, wan: u32, t: nat)
    requires t in m
    ensures Open(m, wan) == Share(m[t], wan) + Open(m - {t}, wan)
    decreases |m|
  {
    var u := Pick(m);
    if u != t {
      OpenWithout(m - {u}, wan, t);
      OpenWithout(m - {t}, wan, u);
      assert m - {u} - {t} == m - {t} - {u};
    }
  }

  lemma {:induction false} OpenWith(m: map<nat, Emitter>, wan: u32, t: nat, e: Emitter)
    ensures Open(m[t := e], wan) == Share(e, wan) + Open(m - {t}, wan)
    ensures Open(m - {t}, wan) == Open(m, wan) - if t in m then Share(m[t], wan) else 0
  {
    hide Share;
    OpenWithout(m[t := e], wan, t);
    assert m[t := e] - {t} == m - {t};
    if t in m {
      OpenWithout(m, wan, t);
    } else {
      assert m - {t} == m;
    }
  }

  predicate SpendsNothing(a: Action) { !a.DoBegin? && !a.DoAttempt? }

  /** Every other step leaves what a producer may still attempt as it is. */
  lemma {:induction false} SharesKept(s: State, a: Action, s': State, wan: u32)
    requires Step(s, a, s') && SpendsNothing(a)
    ensures Open(s'.emitters, wan) == Open(s.emitters, wan)
  {
    if !ByProducer(a) {
      EmittersKept(s, a, s');
    } else {
      var t := a.t;
      OneEmitter(s, a, s', wan);
      hide Step;
      OpenWith(s.emitters, wan, t, s'.emitters[t]);
    }
  }

  lemma {:induction false} OneEmitter(s: State, a: Action, s': State, wan: u32)
    requires Step(s, a, s') && SpendsNothing(a) && ByProducer(a)
    ensures a.t in s.emitters && a.t in s'.emitters && s'.emitters == s.emitters[a.t := s'.emitters[a.t]]
    ensures Share(s'.emitters[a.t], wan) == Share(s.emitters[a.t], wan)
  {
    hide Reads, AtWork;
  }

  /** One step opens what a call asks for and closes what an attempt uses. */
  lemma {:induction false} OneStep(s: State, a: Action, s': State, wan: u32)
    requires Step(s, a, s')
    ensures Open(s'.emitters, wan) + (if AttemptsOn(s, a, wan) then 1 else 0)
         <= Open(s.emitters, wan) + if a.DoBegin? && a.ifindex == wan then a.copies else 0
  {
    if SpendsNothing(a) {
      SharesKept(s, a, s', wan);
    } else {
      OpenWith(s.emitters, wan, a.t, s'.emitters[a.t]);
      hide Open;
    }
  }

  function Sum(n: seq<nat>): nat { if |n| == 0 then 0 else Sum(n[..|n| - 1]) + n[|n| - 1] }

  lemma {:induction false} SumLast(n: seq<nat>, x: nat)
    ensures Sum(n + [x]) == Sum(n) + x
  {
    assert (n + [x])[..|n|] == n;
  }

  /** In any stretch of a run the attempts are covered by what was open before and what the calls asked for. */
  lemma {:induction false} AttemptsCovered(states: seq<State>, acts: seq<Action>, wan: u32, i: nat, j: nat)
    requires Acted(states, acts) && i <= j <= |acts|
    ensures Attempts(states, acts, wan, i, j) + Open(states[j].emitters, wan)
         <= Open(states[i].emitters, wan) + Sum(Calls(acts, wan, i, j))
    decreases j
  {
    hide Step, Init, Open, AttemptsOn;
    if i < j {
      AttemptsCovered(states, acts, wan, i, j - 1);
      OneStep(states[j - 1], acts[j - 1], states[j], wan);
      var (calls, a) := (Calls(acts, wan, i, j - 1), acts[j - 1]);
      if a.DoBegin? && a.ifindex == wan {
        SumLast(calls, a.copies);
      } else {
        assert calls + [] == calls;
      }
    }
  }

  lemma {:induction false} CallsSplit(acts: seq<Action>, wan: u32, i: nat, m: nat, j: nat)
    requires i <= m <= j <= |acts|
    ensures Calls(acts, wan, i, j) == Calls(acts, wan, i, m) + Calls(acts, wan, m, j)
    decreases j
  {
    if m < j { CallsSplit(acts, wan, i, m, j - 1); }
  }

  /** The budget's count of copies is the sum over the same calls. */
  lemma {:induction false} CopiesAreSum(n: seq<nat>, i: nat, j: nat)
    requires i <= j <= |n|
    ensures TB.Copies(n, i, j) == Sum(n[i..j])
    decreases j
  {
    if i < j {
      CopiesAreSum(n, i, j - 1);
      assert n[i..j][..j - i - 1] == n[i..j - 1];
    }
  }

  /** A granted call asks for at most `repeat` copies, a refused one for none; the calls' clock readings in order. */
  ghost predicate Reserved(c: TB.Rate, times: seq<u64>, calls: seq<nat>) {
    && TB.Configured(c) && TB.Nondecreasing(times) && |times| == |calls|
    && forall k :: 0 <= k < |times| ==> calls[k] <= if TB.Granted(c, times, k) then c.repeat else 0
  }

  lemma NothingOpen(states: seq<State>, acts: seq<Action>, wan: u32)
    requires Acted(states, acts)
    ensures |states| == |acts| + 1 && Open(states[0].emitters, wan) == 0
  {
    hide Step;
  }

  lemma {:induction false} CallsOfStretch(acts: seq<Action>, wan: u32, i: nat, j: nat)
    requires i <= j <= |acts|
    ensures var (calls, from, n) :=
              (Calls(acts, wan, 0, |acts|), |Calls(acts, wan, 0, i)|, |Calls(acts, wan, i, j)|);
            from + n <= |calls| && calls[from..from + n] == Calls(acts, wan, i, j)
  {
    hide Calls;
    CallsSplit(acts, wan, 0, i, |acts|);
    CallsSplit(acts, wan, i, j, |acts|);
    MiddlePart(Calls(acts, wan, 0, i), Calls(acts, wan, i, j), Calls(acts, wan, j, |acts|));
  }

  /** What the bucket gives from one call to another: its burst, and its rate over the time between them. */
  function Budget(c: TB.Rate, times: seq<u64>, from: nat, n: nat): int
    requires from + n <= |times|
  {
    if n == 0 then 0 else c.burst * NS + c.rate * (times[from + n - 1] as int - times[from])
  }

  /** What a stretch of calls asked for is bounded by the budget. */
  lemma {:induction false} CallsBudgeted(c: TB.Rate, times: seq<u64>, calls: seq<nat>, from: nat, n: nat)
    requires Reserved(c, times, calls) && from + n <= |calls|
    ensures Sum(calls[from..from + n]) * NS <= Budget(c, times, from, n)
  {
    hide TB.Granted, TB.Nondecreasing, TB.Configured, TB.Copies;
    CopiesAreSum(calls, from, from + n);
    hide Sum;
    if n > 0 {
      TB.WindowBound(c, times, calls, from, from + n);
    } else {
      assert Sum([]) == 0;
    }
  }

  lemma SameLength(c: TB.Rate, times: seq<u64>, calls: seq<nat>)
    requires Reserved(c, times, calls)
    ensures |times| == |calls|
  {
  }

  lemma {:induction false} MiddlePart(a: seq<nat>, b: seq<nat>, c: seq<nat>)
    ensures (a + (b + c))[|a|..|a| + |b|] == b
  {
  }

  lemma Scaled(a: int, b: nat, bound: int)
    requires a <= b && b * NS <= bound
    ensures a * NS <= bound
  {
  }

  /**
   In any stretch of any interleaved run, the requests attempted on a WAN are bounded by its burst, its rate
   over the time between the first and the last call in it, and what earlier calls had left open.
   */
  lemma {:induction false} AttemptsBounded(states: seq<State>, acts: seq<Action>, wan: u32, i: nat, j: nat,
        c: TB.Rate, times: seq<u64>)
    requires Acted(states, acts) && i <= j <= |acts| && Reserved(c, times, Calls(acts, wan, 0, |acts|))
    ensures i == 0 ==> Open(states[i].emitters, wan) == 0
    ensures var (from, n) := (|Calls(acts, wan, 0, i)|, |Calls(acts, wan, i, j)|);
            && from + n <= |times|
            && (Attempts(states, acts, wan, i, j) - Open(states[i].emitters, wan)) * NS
                 <= Budget(c, times, from, n)
  {
    hide *;
    NothingOpen(states, acts, wan);
    var calls := Calls(acts, wan, 0, |acts|);
    var (from, n) := (|Calls(acts, wan, 0, i)|, |Calls(acts, wan, i, j)|);
    SameLength(c, times, calls);
    CallsOfStretch(acts, wan, i, j);
    AttemptsCovered(states, acts, wan, i, j);
    CallsBudgeted(c, times, calls, from, n);
    Scaled(Attempts(states, acts, wan, i, j) - Open(states[i].emitters, wan), Sum(Calls(acts, wan, i, j)),
           Budget(c, times, from, n));
  }
}
