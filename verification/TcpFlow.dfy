/**
 The TCP handshake trigger (ebpf/bpf/tcp.h:91-142): one flow entry, its generations,
 and the batches each generation may fire.
 */
module TcpFlow {
  import opened Bytes
  import opened Common
  import opened Abi
  import opened RuleRotation

  datatype Flow = Flow(rule: u32, synSeq: u32, synBytes: u32, active: bool, stopped: bool, batches: u32,
                       remoteTtl: u32, seen: u64, emitted: u64)

  datatype Config = Config(active: bool, passive: bool, tcpBatches: u32, rules: Rules)

  /**
   A TCP packet of the flow when it reaches the trigger: `refused` is the verdict on its
   options (the rewrite for a SYN, the mere check for a SYN-ACK).
   */
  datatype Event = Event(c: Config, ingress: bool, flags: byte, seqno: u32, ack: u32, bytes: nat, ttl: byte,
                         refused: bool, now: u64)

  const GENERATION_NS := 30 * NS
  const BATCH_NS := 200_000_000

  /** FIN, SYN, RST and ACK decide; the other flags do not. */
  function Control(flags: byte): nat {
    flags % 2 + flags / 2 % 2 * 2 + flags / 4 % 2 * 4 + flags / 16 % 2 * 16
  }

  predicate IsSyn(e: Event) { Control(e.flags) == 0x02 }

  predicate IsSynAck(e: Event) { Control(e.flags) == 0x12 }

  /** A SYN counts only in a direction the configuration covers. */
  predicate Counts(e: Event) {
    IsSyn(e) && (if e.ingress then e.c.passive else e.c.active)
  }

  function Elapsed(now: u64, before: u64): u64 { (now - before) % U64 }

  /**
   A counted SYN opens a generation: on a new entry, after 30 s of silence, or with a new number from the
   same side.
   */
  predicate Opens(f: Option<Flow>, e: Event) {
    && Counts(e)
    && (f.None? || Elapsed(e.now, f.value.seen) > GENERATION_NS
        || (f.value.synSeq != e.seqno && f.value.active == !e.ingress))
  }

  function Clip(n: nat): u32 { n % U32 }

  function AfterSyn(f: Flow, e: Event): Flow {
    var renewed := Elapsed(e.now, f.seen) > GENERATION_NS || (f.synSeq != e.seqno && f.active == !e.ingress);
    var g := if renewed then
               f.(synSeq := e.seqno, synBytes := Clip(e.bytes), active := !e.ingress, stopped := false, batches := 0,
                   emitted := 0)
             else if f.active != !e.ingress then f.(stopped := true)
             else f;
    var h := if g.synSeq == e.seqno && e.bytes > g.synBytes then g.(synBytes := Clip(e.bytes)) else g;
    h.(stopped := h.stopped || e.refused, seen := e.now,
       remoteTtl := if e.ingress then e.ttl as u32 else h.remoteTtl)
  }

  /** What a packet that is not a SYN makes of the entry before the batch decision. */
  function Touched(f: Flow, e: Event): Flow {
    var silenced := Elapsed(e.now, f.seen) > GENERATION_NS || !IsSynAck(e) || e.bytes != 0 || e.refused;
    f.(stopped := f.stopped || silenced, seen := e.now)
  }

  predicate Answers(f: Flow, e: Event) {
    && IsSynAck(e) && f.active == e.ingress
    && (if f.active then e.c.active else e.c.passive)
    && (e.ack == (f.synSeq + 1) % U32 || e.ack == (f.synSeq + 1 + f.synBytes) % U32)
  }

  predicate Fires(f: Option<Flow>, e: Event) {
    && f.Some? && !IsSyn(e)
    && var t := Touched(f.value, e);
       Answers(t, e) && !t.stopped && t.batches < e.c.tcpBatches
       && (t.batches == 0 || Elapsed(e.now, t.emitted) >= BATCH_NS)
  }

  function Next(f: Option<Flow>, e: Event, cursor: u64): Option<Flow>
    requires |e.c.rules.ruleMap| == RULES_MAX
  {
    if IsSyn(e) then
      if !Counts(e) then f
      else if f.None? then
        Some(Flow(Chosen(e.c.rules, cursor), e.seqno, Clip(e.bytes), !e.ingress, e.refused, 0,
                  if e.ingress then e.ttl else 0, e.now, 0))
      else Some(AfterSyn(f.value, e))
    else if f.None? then None
    else
      var t := Touched(f.value, e);
      Some(if Fires(f, e) then t.(batches := Clip(t.batches + 1), emitted := e.now) else t)
  }

  function HopEstimate(f: Flow, e: Event): u32 { if e.ingress then e.ttl else f.remoteTtl }

  function Pinned(f: Flow): u32 { if f.rule >= RULES_MAX then 0 else f.rule }

  /** The flow map: entries are changed in place under the lock of their key. */
  class FlowTable<K(==)> {
    var flows: map<K, Flow>
    const rotation: Rotation

    constructor (rotation: Rotation)
      ensures flows == map[] && this.rotation == rotation
    {
      flows := map[];
      this.rotation := rotation;
    }

    function Entry(key: K): Option<Flow>
      reads this
    {
      if key in flows then Some(flows[key]) else None
    }

    /** The trigger: a batch, its hop estimate and its payload rule. */
    method Trigger(key: K, e: Event) returns (emit: bool, ttl: u32, rule: u32)
      requires |e.c.rules.ruleMap| == RULES_MAX
      modifies this, rotation
      ensures emit == Fires(old(Entry(key)), e)
      ensures emit ==> ttl == HopEstimate(old(Entry(key)).value, e) && rule == Pinned(old(Entry(key)).value)
      ensures Entry(key) == Next(old(Entry(key)), e, old(rotation.cursor))
      ensures forall other :: other != key ==> (other in flows <==> other in old(flows))
      ensures forall other :: other != key && other in flows ==> flows[other] == old(flows)[other]
    {
      hide Control, Elapsed;
      emit, ttl, rule := false, 0, 0;
      var syn, synack := IsSyn(e), IsSynAck(e);
      if syn {
        if !(if e.ingress then e.c.passive else e.c.active) { return; }
        if key !in flows {
          var pinned := rotation.NextRule(e.c.rules);
          flows := flows[key := Flow(pinned, e.seqno, Clip(e.bytes), !e.ingress, e.refused, 0,
                                     if e.ingress then e.ttl else 0, e.now, 0)];
          return;
        }
        var f := flows[key];
        if Elapsed(e.now, f.seen) > GENERATION_NS || (f.synSeq != e.seqno && f.active == !e.ingress) {
          f := f.(synSeq := e.seqno, synBytes := Clip(e.bytes), active := !e.ingress);
          f := f.(stopped := false, batches := 0, emitted := 0);
        } else if f.active != !e.ingress {
          f := f.(stopped := true);
        }
        if f.synSeq == e.seqno && e.bytes > f.synBytes { f := f.(synBytes := Clip(e.bytes)); }
        if e.refused { f := f.(stopped := true); }
        f := f.(seen := e.now);
        if e.ingress { f := f.(remoteTtl := e.ttl); }
        flows := flows[key := f];
        return;
      }
      if key !in flows { return; }
      var f := flows[key];
      if Elapsed(e.now, f.seen) > GENERATION_NS { f := f.(stopped := true); }
      f := f.(seen := e.now);
      if !synack || e.bytes != 0 || e.refused { f := f.(stopped := true); }
      if synack && f.active == e.ingress && !f.stopped && (if f.active then e.c.active else e.c.passive)
         && (e.ack == (f.synSeq + 1) % U32 || e.ack == (f.synSeq + 1 + f.synBytes) % U32)
         && f.batches < e.c.tcpBatches && (f.batches == 0 || Elapsed(e.now, f.emitted) >= BATCH_NS) {
        f := f.(batches := Clip(f.batches + 1), emitted := e.now);
        emit := true;
        ttl := if e.ingress then e.ttl else f.remoteTtl;
        rule := if f.rule >= RULES_MAX then 0 else f.rule;
      }
      flows := flows[key := f];
    }
  }

  // ---------- whole runs of one entry ----------

  /** Events of one flow, each with the rotation cursor it would pin a rule with. */
  datatype Run = Run(es: seq<Event>, cursors: seq<u64>)

  predicate Plausible(r: Run) {
    && |r.cursors| == |r.es|
    && forall i :: 0 <= i < |r.es| ==> |r.es[i].c.rules.ruleMap| == RULES_MAX && r.es[i].bytes < U32
  }

  function After(r: Run, n: nat): Option<Flow>
    requires Plausible(r) && n <= |r.es|
  {
    if n == 0 then None else Next(After(r, n - 1), r.es[n - 1], r.cursors[n - 1])
  }

  predicate Batch(r: Run, i: nat)
    requires Plausible(r) && i < |r.es|
  {
    Fires(After(r, i), r.es[i])
  }

  predicate Resets(r: Run, i: nat)
    requires Plausible(r) && i < |r.es|
  {
    Opens(After(r, i), r.es[i])
  }

  /** The generation packet `i` falls into: the last SYN that opened one. */
  function Generation(r: Run, i: nat): (g: nat)
    requires Plausible(r) && i < |r.es|
    ensures g <= i
  {
    if i == 0 || Resets(r, i) then i else Generation(r, i - 1)
  }

  function Batches(r: Run, g: nat, n: nat): nat
    requires Plausible(r) && g <= n <= |r.es|
  {
    if g == n then 0 else Batches(r, g, n - 1) + (if Batch(r, n - 1) then 1 else 0)
  }

  /** The most data any counted SYN with the generation's number has carried. */
  function SynData(r: Run, g: nat, n: nat): nat
    requires Plausible(r) && g < n <= |r.es|
    decreases n
  {
    var e := r.es[n - 1];
    if n == g + 1 then e.bytes
    else
      var before := SynData(r, g, n - 1);
      if Counts(e) && e.seqno == r.es[g].seqno && e.bytes > before then e.bytes else before
  }

  /** When the entry was last touched: a SYN in an uncovered direction does not reach it. */
  function LastSeen(r: Run, n: nat): u64
    requires Plausible(r) && n <= |r.es|
  {
    if n == 0 then 0
    else if IsSyn(r.es[n - 1]) && !Counts(r.es[n - 1]) then LastSeen(r, n - 1)
    else r.es[n - 1].now
  }

  /** When the generation last fired. */
  function LastBatch(r: Run, g: nat, n: nat): u64
    requires Plausible(r) && g <= n <= |r.es|
    decreases n
  {
    if n == g then 0 else if Batch(r, n - 1) then r.es[n - 1].now else LastBatch(r, g, n - 1)
  }

  /**
   Packets after which a generation stays silent: a refused SYN, a SYN from the other
   side, and anything but a timely SYN-ACK without data and with acceptable options.
   */
  predicate Silences(r: Run, g: nat, j: nat)
    requires Plausible(r) && g <= j < |r.es|
  {
    var e := r.es[j];
    if IsSyn(e) then Counts(e) && (e.refused || e.ingress != r.es[g].ingress)
    else !IsSynAck(e) || e.bytes != 0 || e.refused || Elapsed(e.now, LastSeen(r, j)) > GENERATION_NS
  }

  predicate Silenced(r: Run, g: nat, n: nat)
    requires Plausible(r) && g <= n <= |r.es|
  {
    exists j :: g <= j < n && Silences(r, g, j)
  }

  /** What an entry's fields mean, in terms of the packets of the generation that began at `g`. */
  ghost predicate Means(r: Run, f: Flow, g: nat, n: nat)
    requires Plausible(r) && g < n <= |r.es|
  {
    && f.synSeq == r.es[g].seqno && f.active == !r.es[g].ingress
    && f.synBytes == SynData(r, g, n)
    && f.batches == Batches(r, g, n)
    && (f.batches > 0 ==> f.emitted == LastBatch(r, g, n))
    && (f.stopped <==> Silenced(r, g, n))
    && f.seen == LastSeen(r, n)
  }

  lemma {:induction false} SilencedNext(r: Run, g: nat, n: nat)
    requires Plausible(r) && g <= n < |r.es|
    ensures Silenced(r, g, n + 1) <==> Silenced(r, g, n) || Silences(r, g, n)
    ensures !Silenced(r, g, g)
  {
  }

  lemma {:induction false} MeansOpened(r: Run, i: nat)
    requires Plausible(r) && i < |r.es| && Resets(r, i)
    ensures After(r, i + 1).Some? && Means(r, After(r, i + 1).value, i, i + 1)
  {
    StateNext(r, i);
    SynIsNotSynAck(r.es[i]);
    assert Batches(r, i, i) == 0;
    SilencedNext(r, i, i);
    hide Silenced, Fires, Elapsed, Control, After;
  }

  lemma SynHasNoBatch(f: Option<Flow>, e: Event)
    ensures IsSyn(e) ==> !Fires(f, e)
  {
  }

  lemma ElapsedIs(now: u64, before: u64)
    requires before <= now
    ensures Elapsed(now, before) == now - before
  {
  }

  lemma {:induction false} StateNext(r: Run, i: nat)
    requires Plausible(r) && i < |r.es|
    ensures After(r, i + 1) == Next(After(r, i), r.es[i], r.cursors[i])
    ensures Batch(r, i) == Fires(After(r, i), r.es[i])
    ensures IsSyn(r.es[i]) ==> !Batch(r, i)
    ensures Clip(r.es[i].bytes) == r.es[i].bytes
  {
    ClipIs(r.es[i].bytes);
    SynHasNoBatch(After(r, i), r.es[i]);
    hide Next, Fires, Control, Clip;
  }

  lemma ClipIs(n: nat)
    requires n < U32
    ensures Clip(n) == n
  {
  }

  lemma {:induction false} CountersNext(r: Run, g: nat, i: nat)
    requires Plausible(r) && g < i < |r.es|
    ensures Batches(r, g, i + 1) == Batches(r, g, i) + (if Batch(r, i) then 1 else 0)
    ensures LastBatch(r, g, i + 1) == (if Batch(r, i) then r.es[i].now else LastBatch(r, g, i))
  {
    hide Batch;
  }

  lemma {:induction false} DataNext(r: Run, g: nat, i: nat)
    requires Plausible(r) && g < i < |r.es|
    ensures var (e, data) := (r.es[i], SynData(r, g, i));
            && SynData(r, g, i + 1) == (if Counts(e) && e.seqno == r.es[g].seqno && e.bytes > data then e.bytes
                else data)
            && LastSeen(r, i + 1) == (if IsSyn(e) && !Counts(e) then LastSeen(r, i) else e.now)
  {
    hide Control, Counts;
  }

  lemma {:induction false} MeansAfterSyn(r: Run, f: Flow, g: nat, i: nat)
    requires Plausible(r) && g < i < |r.es| && After(r, i) == Some(f) && Means(r, f, g, i)
    requires IsSyn(r.es[i]) && !Resets(r, i)
    ensures After(r, i + 1).Some? && Means(r, After(r, i + 1).value, g, i + 1)
  {
    StateNext(r, i);
    CountersNext(r, g, i);
    DataNext(r, g, i);
    SilencedNext(r, g, i);
    hide Silenced, Batches, Batch, Fires, SynData, LastBatch, LastSeen, After, Control, Elapsed, Clip;
    assert Opens(After(r, i), r.es[i]) == Resets(r, i);
  }

  lemma {:induction false} MeansAfterOther(r: Run, f: Flow, g: nat, i: nat)
    requires Plausible(r) && g < i < |r.es| && After(r, i) == Some(f) && Means(r, f, g, i)
    requires !IsSyn(r.es[i])
    ensures After(r, i + 1).Some? && Means(r, After(r, i + 1).value, g, i + 1)
  {
    StateNext(r, i);
    CountersNext(r, g, i);
    DataNext(r, g, i);
    SilencedNext(r, g, i);
    NoSynNoData(r.es[i]);
    ClipIs(if f.batches < r.es[i].c.tcpBatches then f.batches + 1 else 0);
    SilencesOther(r, g, i);
    hide Clip, Silences;
    hide Silenced, Batches, Batch, SynData, LastBatch, LastSeen, After, Control, Elapsed, Answers, Counts;
  }

  lemma SilencesOther(r: Run, g: nat, i: nat)
    requires Plausible(r) && g <= i < |r.es| && !IsSyn(r.es[i])
    ensures Silences(r, g, i) <==> !IsSynAck(r.es[i]) || r.es[i].bytes != 0 || r.es[i].refused
                                   || Elapsed(r.es[i].now, LastSeen(r, i)) > GENERATION_NS
  {
  }

  lemma NoSynNoData(e: Event)
    requires !IsSyn(e)
    ensures !Counts(e)
  {
  }

  lemma {:induction false} Meaning(r: Run, i: nat)
    requires Plausible(r) && i < |r.es| && After(r, i + 1).Some?
    ensures Resets(r, Generation(r, i)) && Means(r, After(r, i + 1).value, Generation(r, i), i + 1)
  {
    if Resets(r, i) {
      MeansOpened(r, i);
    } else {
      NotFirst(r, i);
      Meaning(r, i - 1);
      var (f, g) := (After(r, i).value, Generation(r, i - 1));
      hide Means;
      if IsSyn(r.es[i]) {
        MeansAfterSyn(r, f, g, i);
      } else {
        MeansAfterOther(r, f, g, i);
      }
    }
  }

  lemma {:induction false} NotFirst(r: Run, i: nat)
    requires Plausible(r) && i < |r.es| && After(r, i + 1).Some? && !Resets(r, i)
    ensures i > 0 && After(r, i).Some?
  {
  }

  // ---------- the theorems ----------

  /**
   Every batch answers a SYN-ACK without data, from the other side than the SYN that
   opened its generation, acknowledging that SYN with or without its data; the
   generation has not been silenced and stays within its budget.
   */
  lemma {:induction false} HandshakeBatch(r: Run, i: nat)
    requires Plausible(r) && i < |r.es| && Batch(r, i)
    ensures var (g, e) := (Generation(r, i), r.es[i]);
            && g < i && Resets(r, g) && Counts(r.es[g])
            && IsSynAck(e) && e.bytes == 0 && !e.refused && e.ingress != r.es[g].ingress
            && (e.ack == (r.es[g].seqno + 1) % U32 || e.ack == (r.es[g].seqno + 1 + SynData(r, g, i)) % U32)
            && !Silenced(r, g, i + 1)
            && Batches(r, g, i + 1) <= e.c.tcpBatches
  {
    var e := r.es[i];
    var f := After(r, i).value;
    SynIsNotSynAck(e);
    assert i > 0;
    Meaning(r, i - 1);
    var g := Generation(r, i);
    assert g == Generation(r, i - 1);
    SilencedNext(r, g, i);
    assert Batches(r, g, i + 1) == Batches(r, g, i) + 1;
    hide After, Generation, Silenced, SynData;
  }

  lemma SynIsNotSynAck(e: Event)
    ensures !(IsSyn(e) && IsSynAck(e))
  {
  }

  predicate Nondecreasing(r: Run) {
    forall i, j :: 0 <= i <= j < |r.es| ==> r.es[i].now <= r.es[j].now
  }

  lemma {:induction false} LastBatchCovers(r: Run, g: nat, j: nat, n: nat)
    requires Plausible(r) && Nondecreasing(r) && g <= j < n <= |r.es| && Batch(r, j)
    ensures r.es[j].now <= LastBatch(r, g, n) && Batches(r, g, n) > 0
    ensures exists k :: j <= k < n && LastBatch(r, g, n) == r.es[k].now
    decreases n
  {
    if !Batch(r, n - 1) {
      LastBatchCovers(r, g, j, n - 1);
    }
  }

  lemma {:induction false} BatchInside(r: Run, i: nat)
    requires Plausible(r) && i < |r.es| && Batch(r, i)
    ensures i > 0 && Generation(r, i) < i
    ensures var g := Generation(r, i);
            Batches(r, g, i) == 0 || Elapsed(r.es[i].now, LastBatch(r, g, i)) >= BATCH_NS
  {
    SynIsNotSynAck(r.es[i]);
    assert i > 0;
    Meaning(r, i - 1);
    assert Generation(r, i) == Generation(r, i - 1);
    hide Control, Elapsed, Silenced, SynData, LastBatch, Batches, LastSeen;
  }

  /** Two batches of one generation are at least 200 ms apart. */
  lemma {:induction false} BatchesApart(r: Run, j: nat, i: nat)
    requires Plausible(r) && Nondecreasing(r) && j < i < |r.es| && Batch(r, j) && Batch(r, i)
    requires Generation(r, i) <= j
    ensures r.es[i].now - r.es[j].now >= BATCH_NS
  {
    var g := Generation(r, i);
    BatchInside(r, i);
    LastBatchCovers(r, g, j, i);
    hide After, Generation, Silenced, SynData, LastBatch, Batches, Batch, Means, Elapsed;
    ElapsedIs(r.es[i].now, LastBatch(r, g, i));
  }

  /** With a clock that does not run backwards, 30 s of the entry's time are 30 s of real silence. */
  lemma {:induction false} SilenceIsReal(r: Run, i: nat)
    requires Plausible(r) && Nondecreasing(r) && i < |r.es| && After(r, i).Some?
    ensures After(r, i).value.seen <= r.es[i].now
    ensures Elapsed(r.es[i].now, After(r, i).value.seen) == r.es[i].now - After(r, i).value.seen
  {
    assert i > 0;
    Meaning(r, i - 1);
    SeenBefore(r, i);
    hide After, Generation, Silenced, SynData, LastBatch, Batches, LastSeen, Resets, Elapsed;
    ElapsedIs(r.es[i].now, After(r, i).value.seen);
  }

  lemma {:induction false} SeenBefore(r: Run, n: nat)
    requires Plausible(r) && Nondecreasing(r) && n < |r.es|
    ensures LastSeen(r, n) <= r.es[n].now
    decreases n
  {
    if n > 0 {
      SeenBefore(r, n - 1);
    }
  }

  /** An entry was last seen at or after the SYN that opened its generation. */
  lemma {:induction false} SeenSinceOpened(r: Run, g: nat, n: nat)
    requires Plausible(r) && Nondecreasing(r) && g < n <= |r.es| && Counts(r.es[g])
    ensures LastSeen(r, n) >= r.es[g].now
    decreases n
  {
    if n > g + 1 { SeenSinceOpened(r, g, n - 1); }
  }

  lemma RepeatedSyn(f: Flow, e: Event, cursor: u64)
    requires |e.c.rules.ruleMap| == RULES_MAX && Counts(e) && !Opens(Some(f), e)
    ensures var n := Next(Some(f), e, cursor);
            n.Some? && n.value.batches == f.batches && (f.stopped ==> n.value.stopped)
  {
  }

  /**
   A SYN with the generation's own number opens a new one exactly after 30 s of silence. Within 30 s of
   the generation's SYN it never does: the generation goes on, and neither its budget nor its silence
   is lifted.
   */
  lemma {:induction false} RetransmissionKeepsBudget(r: Run, i: nat)
    requires Plausible(r) && Nondecreasing(r) && 0 < i < |r.es| && After(r, i).Some?
    requires Counts(r.es[i]) && r.es[i].seqno == r.es[Generation(r, i - 1)].seqno
    ensures var (g, e) := (Generation(r, i - 1), r.es[i]);
            && (Resets(r, i) <==> e.now - LastSeen(r, i) > GENERATION_NS)
            && (e.now - r.es[g].now <= GENERATION_NS ==>
                  !Resets(r, i) && Generation(r, i) == g && Batches(r, g, i + 1) == Batches(r, g, i)
                  && (Silenced(r, g, i) ==> Silenced(r, g, i + 1))
                  && After(r, i + 1).Some? && After(r, i + 1).value.batches == After(r, i).value.batches
                  && (After(r, i).value.stopped ==> After(r, i + 1).value.stopped))
  {
    var (g, e) := (Generation(r, i - 1), r.es[i]);
    Meaning(r, i - 1);
    SilenceIsReal(r, i);
    assert Counts(r.es[g]);
    SeenSinceOpened(r, g, i);
    SilencedNext(r, g, i);
    StateNext(r, i);
    if !Resets(r, i) { RepeatedSyn(After(r, i).value, e, r.cursors[i]); }
    hide After, Silenced, SynData, LastBatch, LastSeen, Elapsed, Control, Next;
    assert Resets(r, i) <==> e.now - LastSeen(r, i) > GENERATION_NS;
  }

  // ---------- exactly when a batch fires ----------

  /** The entry exists exactly once a SYN has counted. */
  lemma {:induction false} EntryExists(r: Run, n: nat)
    requires Plausible(r) && n <= |r.es|
    ensures After(r, n).Some? <==> exists j :: 0 <= j < n && Counts(r.es[j])
  {
    hide Counts, AfterSyn, Touched, Fires;
    if n > 0 {
      EntryExists(r, n - 1);
      CountsIsSyn(r.es[n - 1]);
    }
  }

  lemma CountsIsSyn(e: Event)
    ensures Counts(e) ==> IsSyn(e)
  {
  }

  /** A SYN-ACK the generation can fire on: from the other side, covered, without data, and matching its SYN. */
  predicate Matches(r: Run, g: nat, i: nat)
    requires Plausible(r) && g < i < |r.es|
  {
    var e := r.es[i];
    && IsSynAck(e) && e.bytes == 0 && !e.refused && e.ingress != r.es[g].ingress
    && (if e.ingress then e.c.active else e.c.passive)
    && (e.ack == (r.es[g].seqno + 1) % U32 || e.ack == (r.es[g].seqno + 1 + SynData(r, g, i)) % U32)
  }

  /** The generation may still fire: never silenced, seen within 30 s, below its budget, 200 ms since its last batch. */
  predicate Ready(r: Run, g: nat, i: nat)
    requires Plausible(r) && g < i < |r.es|
  {
    && !Silenced(r, g, i) && Elapsed(r.es[i].now, LastSeen(r, i)) <= GENERATION_NS
    && Batches(r, g, i) < r.es[i].c.tcpBatches
    && (Batches(r, g, i) == 0 || Elapsed(r.es[i].now, LastBatch(r, g, i)) >= BATCH_NS)
  }

  /** A batch fires exactly on a packet that matches a ready generation of a flow opened by some SYN. */
  lemma {:induction false} BatchExactly(r: Run, i: nat)
    requires Plausible(r) && i < |r.es|
    ensures Batch(r, i) <==>
      (exists j :: 0 <= j < i && Counts(r.es[j]))
      && Generation(r, i) < i && Matches(r, Generation(r, i), i) && Ready(r, Generation(r, i), i)
  {
    EntryExists(r, i);
    SynIsNotSynAck(r.es[i]);
    if After(r, i).Some? {
      assert i > 0;
      if IsSynAck(r.es[i]) {
        assert Generation(r, i) == Generation(r, i - 1);
        BatchOfGeneration(r, i);
      }
    }
  }

  /** Whether an entry fires on a SYN-ACK, in its own fields. */
  lemma FiresOn(f: Flow, e: Event)
    requires IsSynAck(e)
    ensures Fires(Some(f), e) <==>
      && f.active == e.ingress && (if f.active then e.c.active else e.c.passive)
      && (e.ack == (f.synSeq + 1) % U32 || e.ack == (f.synSeq + 1 + f.synBytes) % U32)
      && e.bytes == 0 && !e.refused && !f.stopped && Elapsed(e.now, f.seen) <= GENERATION_NS
      && f.batches < e.c.tcpBatches && (f.batches == 0 || Elapsed(e.now, f.emitted) >= BATCH_NS)
  {
    SynIsNotSynAck(e);
    hide Control, Elapsed;
  }

  lemma {:induction false} BatchOfGeneration(r: Run, i: nat)
    requires Plausible(r) && 0 < i < |r.es| && After(r, i).Some? && IsSynAck(r.es[i])
    ensures var g := Generation(r, i - 1); Batch(r, i) <==> Matches(r, g, i) && Ready(r, g, i)
  {
    hide After, Generation, Silenced, SynData, LastBatch, Batches, LastSeen, Elapsed, IsSynAck, Resets, Fires;
    Meaning(r, i - 1);
    FiresOn(After(r, i).value, r.es[i]);
  }

  /** The packet that created the entry. */
  function Creation(r: Run, n: nat): (k: nat)
    requires Plausible(r) && n <= |r.es| && After(r, n).Some?
    ensures k < n
  {
    if After(r, n - 1).None? then n - 1 else Creation(r, n - 1)
  }

  /** One flow entry uses one rule: the one pinned at its creation, in every generation. */
  lemma {:induction false} RulePinnedOnce(r: Run, n: nat)
    requires Plausible(r) && n <= |r.es| && After(r, n).Some?
    ensures var k := Creation(r, n);
            Counts(r.es[k]) && After(r, n).value.rule == Chosen(r.es[k].c.rules, r.cursors[k])
  {
    if After(r, n - 1).Some? {
      RulePinnedOnce(r, n - 1);
    }
  }
}
