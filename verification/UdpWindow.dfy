/** The early-packet window of a UDP flow (ebpf/bpf/udp.h). */
module UdpWindow {
  import opened Bytes
  import opened Common
  import opened Abi

  datatype Config = Config(udpPackets: u32, udpIdle: u32, udpBoth: bool)

  datatype Flow = Flow(packets: u32, batches: u32, outbound: bool, seen: u64, remoteTtl: u32)

  datatype Event = Event(ingress: bool, now: u64, ttl: byte)

  const FRESH := Flow(0, 0, false, 0, 0)

  function Idle(f: Flow, c: Config, now: u64): bool {
    (now - f.seen) % U64 > c.udpIdle * NS
  }

  /** The flow as the packet finds it, the idle reset included. */
  function Opened(f: Flow, c: Config, e: Event): Flow {
    var kept := if Idle(f, c, e.now) then FRESH else f;
    kept.(seen := e.now,
          packets := if kept.packets < U32 - 1 then kept.packets + 1 else kept.packets,
          remoteTtl := if e.ingress then e.ttl as u32 else kept.remoteTtl,
          outbound := kept.outbound || !e.ingress)
  }

  predicate Fires(f: Flow, c: Config, e: Event) {
    var o := Opened(f, c, e);
    o.packets <= c.udpPackets && o.batches < c.udpPackets && (!e.ingress || (c.udpBoth && o.outbound))
  }

  function Next(f: Flow, c: Config, e: Event): Flow {
    var o := Opened(f, c, e);
    if Fires(f, c, e) then o.(batches := o.batches + 1) else o
  }

  class UdpFlow {
    var packets: u32
    var batches: u32
    var outbound: bool
    var seen: u64
    var remoteTtl: u32

    function View(): Flow
      reads this
    {
      Flow(packets, batches, outbound, seen, remoteTtl)
    }

    constructor ()
      ensures View() == FRESH
    {
      packets, batches, outbound, seen, remoteTtl := 0, 0, false, 0, 0;
    }

    /** The trigger under the flow's lock; `ttl` is the hop estimate of a batch. */
    method Trigger(c: Config, e: Event) returns (emit: bool, ttl: u32)
      modifies this
      ensures emit == Fires(old(View()), c, e) && View() == Next(old(View()), c, e)
      ensures ttl == if emit then Opened(old(View()), c, e).remoteTtl else 0
    {
      emit, ttl := false, 0;
      if (e.now - seen) % U64 > c.udpIdle * NS {
        packets, batches, outbound, remoteTtl := 0, 0, false, 0;
      }
      seen := e.now;
      if packets < U32 - 1 { packets := packets + 1; }
      if e.ingress { remoteTtl := e.ttl; } else { outbound := true; }
      var early := packets <= c.udpPackets;
      if early && batches < c.udpPackets && (!e.ingress || (c.udpBoth && outbound)) {
        batches := batches + 1;
        emit := true;
        ttl := remoteTtl;
      }
    }
  }

  // ---------- whole runs ----------

  function After(c: Config, es: seq<Event>, n: nat): Flow
    requires n <= |es|
  {
    if n == 0 then FRESH else Next(After(c, es, n - 1), c, es[n - 1])
  }

  predicate Batch(c: Config, es: seq<Event>, i: nat)
    requires i < |es|
  {
    Fires(After(c, es, i), c, es[i])
  }

  /** Where the window of packet `i` began: at its last idle reset, or with the flow. */
  function WindowStart(c: Config, es: seq<Event>, i: nat): (g: nat)
    requires i < |es|
    ensures g <= i
  {
    if i == 0 || Idle(After(c, es, i), c, es[i].now) then i else WindowStart(c, es, i - 1)
  }

  function Batches(c: Config, es: seq<Event>, g: nat, n: nat): nat
    requires g <= n <= |es|
  {
    if g == n then 0 else Batches(c, es, g, n - 1) + (if Batch(c, es, n - 1) then 1 else 0)
  }

  predicate Outbound(es: seq<Event>, g: nat, n: nat)
    requires g <= n <= |es|
  {
    exists j :: g <= j < n && !es[j].ingress
  }

  /** What the flow's counters mean. */
  lemma {:induction false} Counters(c: Config, es: seq<Event>, i: nat)
    requires i < |es|
    ensures var (f, g) := (After(c, es, i + 1), WindowStart(c, es, i));
            && f.packets == Min(i + 1 - g, U32 - 1)
            && f.batches == Batches(c, es, g, i + 1) <= Min(f.packets, c.udpPackets)
            && (f.outbound <==> Outbound(es, g, i + 1))
  {
    var (g, before, e) := (WindowStart(c, es, i), After(c, es, i), es[i]);
    assert Batches(c, es, i, i) == 0;
    assert After(c, es, i + 1) == Next(before, c, e) && Batch(c, es, i) == Fires(before, c, e);
    assert Batches(c, es, g, i + 1) == Batches(c, es, g, i) + if Batch(c, es, i) then 1 else 0;
    OutboundNext(es, g, i);
    hide Outbound, Batch, Idle;
    if g < i {
      Counters(c, es, i - 1);
    }
  }

  lemma {:induction false} OutboundNext(es: seq<Event>, g: nat, i: nat)
    requires g <= i < |es|
    ensures Outbound(es, g, i + 1) <==> Outbound(es, g, i) || !es[i].ingress
    ensures !Outbound(es, g, g)
  {
  }

  /**
   Between two idle resets at most `udpPackets` batches fire, each within the first
   `udpPackets` counted packets; an ingress packet fires only in both-mode, after an
   egress packet of the same window.
   */
  lemma {:induction false} WindowBound(c: Config, es: seq<Event>, i: nat)
    requires i < |es| && Batch(c, es, i)
    ensures var g := WindowStart(c, es, i);
            && Batches(c, es, g, i + 1) <= c.udpPackets
            && Min(i + 1 - g, U32 - 1) <= c.udpPackets
            && (es[i].ingress ==> c.udpBoth && Outbound(es, g, i))
  {
    Counters(c, es, i);
    var g := WindowStart(c, es, i);
    if es[i].ingress && g < i {
      Counters(c, es, i - 1);
      assert Outbound(es, g, i + 1) <==> Outbound(es, g, i);
    }
  }

  /** Exactly when a packet fires: both guards and the direction, all in terms of the window's packets. */
  lemma {:induction false} BatchExactly(c: Config, es: seq<Event>, i: nat)
    requires i < |es|
    ensures var g := WindowStart(c, es, i);
            Batch(c, es, i) <==> && Min(i + 1 - g, U32 - 1) <= c.udpPackets && Batches(c, es, g, i) < c.udpPackets
                                 && (!es[i].ingress || (c.udpBoth && Outbound(es, g, i)))
  {
    var g := WindowStart(c, es, i);
    OutboundNext(es, g, i);
    hide Outbound, Idle;
    assert Batches(c, es, g, g) == 0;
    if g < i { Counters(c, es, i - 1); }
  }

  /** Wherever the guard on the packets passes, so does the guard on the batches. */
  predicate GuardHolds(c: Config, es: seq<Event>, i: nat)
    requires i < |es|
  {
    var o := Opened(After(c, es, i), c, es[i]);
    o.packets <= c.udpPackets ==> o.batches < c.udpPackets
  }

  /** The guard on the batches is implied by the guard on the packets, except for the largest setting. */
  lemma {:induction false} BatchGuardImplied(c: Config, es: seq<Event>, i: nat)
    requires i < |es| && c.udpPackets < U32 - 1
    ensures GuardHolds(c, es, i)
  {
    if i > 0 {
      Counters(c, es, i - 1);
    }
  }

  /** `n` egress packets at once. */
  function Burst(n: nat): seq<Event> { seq(n, _ => Event(false, 0, 64)) }

  /** At the largest setting a burst fires with every packet until the packet counter is full. */
  lemma {:induction false} BurstFires(c: Config, es: seq<Event>, n: nat)
    requires c.udpPackets == U32 - 1 && n < U32 && n <= |es| && es == Burst(|es|)
    ensures var f := After(c, es, n); f.packets == f.batches == n && f.seen == 0
  {
    if n > 0 { BurstFires(c, es, n - 1); }
  }

  /** The packet after a burst of 2^32 - 1 passes the first guard and is stopped by the second. */
  lemma {:induction false} BatchGuardNeeded(c: Config)
    requires c.udpPackets == U32 - 1
    ensures !GuardHolds(c, Burst(U32), U32 - 1)
  {
    hide After;
    BurstFires(c, Burst(U32), U32 - 1);
  }

  /**
   Over all runs, the guard on the batches is redundant exactly below the largest setting. The
   configuration reader accepts 1 to 32.
   */
  lemma {:induction false} GuardRedundantExactly(c: Config)
    ensures (forall es, i: nat :: i < |es| ==> GuardHolds(c, es, i)) <==> c.udpPackets < U32 - 1
  {
    hide GuardHolds;
    if c.udpPackets < U32 - 1 {
      forall es, i: nat | i < |es| ensures GuardHolds(c, es, i) { BatchGuardImplied(c, es, i); }
    } else {
      BatchGuardNeeded(c);
    }
  }

  /** With a clock that does not run backwards a window ends only after a real idle time. */
  lemma {:induction false} ResetsAreIdle(c: Config, es: seq<Event>, i: nat)
    requires 0 < i < |es| && es[i - 1].now <= es[i].now
    ensures WindowStart(c, es, i) == i ==> es[i].now - es[i - 1].now > c.udpIdle * NS
    ensures WindowStart(c, es, i) < i ==> es[i].now - es[i - 1].now <= c.udpIdle * NS
  {
    assert After(c, es, i).seen == es[i - 1].now;
  }
}
