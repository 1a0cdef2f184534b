/**
 The one-shot requests between the producer (`emit`), the builder and the consumer
 (`observe`), as interleaved steps over the shared request map
 (ebpf/bpf/observer.bpf.c:52-103, ebpf/bpf/builder.bpf.c:169-182).

 A credential travels in two words of the clone's control block. The builder runs
 inside the producer's `clone_redirect`; the redirected clone may reach the WAN hook
 before or after the producer goes on. Nobody else copies clones, and no other packet
 carries a live credential.
 */
module RequestProtocol {
  import opened Bytes

  const CAPACITY := 256

  datatype Cb = Cb(lo: u32, hi: u32)

  function Pack(id: u64): Cb { Cb(id % U32, id / U32) }

  function Unpack(cb: Cb): u64 { cb.hi * U32 + cb.lo }

  lemma Unpacked(id: u64)
    ensures Unpack(Pack(id)) == id
  {
  }

  lemma Repacked(cb: Cb)
    ensures Pack(Unpack(cb)) == cb
  {
    var id := Unpack(cb);
    assert id == cb.hi * U32 + cb.lo && 0 <= cb.lo < U32;
    DivModIs(cb.hi, cb.lo);
  }

  lemma DivModIs(q: nat, r: nat)
    requires r < U32
    ensures (q * U32 + r) / U32 == q && (q * U32 + r) % U32 == r
  {
  }

  /** A request: 0 posted, 1 taken by a builder, 2 submitted. (3 exists only inside the consumer's step.) */
  datatype Entry = Entry(state: nat, ifindex: u32, ifgen: u32, saved: Cb)

  /** Where a producer stands with its current request. */
  datatype Pc =
    | Ready
    | InClone(id: u64)
    | Returned(id: u64, failed: bool, present: bool)
    | Counted(id: u64, present: bool)
    | Decided(id: u64, delete: bool)
    | Done

  /** Who asked for an id, and the control block of the packet it was asked for. */
  datatype Origin = Origin(emitter: nat, cb: Cb)

  datatype Emitter = Emitter(original: Cb, cb: Cb, ifindex: u32, ifgen: u32, left: nat, pc: Pc)

  datatype Phase =
    | AtBuilder
    | Building
    | Finished
    | Redirected(ifindex: u32)
    | Refused
    | Passed(cb: Cb)
    | Shot
    | Lost
    | Retriggered

  datatype Clone = Clone(cb: Cb, phase: Phase)

  /** The shared state, with what the run has done so far: who owns an id, and what happened to it. */
  datatype State = State(
    sequence: u64, requests: map<u64, Entry>, emitters: map<nat, Emitter>, clones: map<u64, Clone>,
    interfaces: map<u32, u32>, buildOk: nat, submitOk: nat, shotReal: nat,
    owner: map<u64, Origin>, taken: multiset<u64>, spent: multiset<u64>, built: set<u64>, submitted: set<u64>)

  predicate Init(s: State) {
    && s.sequence == 0 && s.requests == map[] && s.emitters == map[] && s.clones == map[]
    && s.buildOk == s.submitOk == s.shotReal == 0
    && s.owner == map[] && s.taken == s.spent == multiset{} && s.built == s.submitted == {}
  }

  // ---------- the observer's verdict on a packet at WAN egress ----------

  datatype Verdict = Spends(id: u64, cb: Cb) | Shoots | FallsThrough

  function Observe(s: State, cb: Cb, ifindex: u32): Verdict {
    var id := Unpack(cb);
    if id in s.requests && s.requests[id].state == 2 && s.requests[id].ifindex == ifindex then
      if ifindex !in s.interfaces || s.interfaces[ifindex] != s.requests[id].ifgen then Shoots
      else Spends(id, s.requests[id].saved)
    else FallsThrough
  }

  // ---------- producer steps ----------

  predicate Begin(s: State, s': State, t: nat, cb: Cb, ifindex: u32, copies: nat) {
    && (t in s.emitters ==> s.emitters[t].pc == Done) && ifindex in s.interfaces && copies <= 8
    && s' == s.(emitters := s.emitters[t := Emitter(cb, cb, ifindex, s.interfaces[ifindex], copies, Ready)])
  }

  function NextId(s: State): (id: u64) { (s.sequence + 1) % U64 }

  /** The 64-bit sequence does not come round within a run. */
  predicate Attempt(s: State, s': State, t: nat, inserted: bool) {
    && t in s.emitters && s.emitters[t].pc == Ready && s.emitters[t].left > 0
    && var (id, e) := (NextId(s), s.emitters[t]);
       && s.sequence + 1 < U64 && (inserted ==> |s.requests| < CAPACITY)
       && s' == if inserted then
                  s.(sequence := id, owner := s.owner[id := Origin(t, e.cb)],
                     requests := s.requests[id := Entry(0, e.ifindex, e.ifgen, e.cb)],
                     emitters := s.emitters[t := e.(cb := Pack(id), left := e.left - 1, pc := InClone(id))])
                else
                  s.(sequence := id, owner := s.owner[id := Origin(t, e.cb)],
                      emitters := s.emitters[t := e.(left := e.left - 1)])
  }

  predicate Stop(s: State, s': State, t: nat) {
    && t in s.emitters && s.emitters[t].pc == Ready
    && s' == s.(emitters := s.emitters[t := s.emitters[t].(pc := Done)])
  }

  predicate MakeClone(s: State, s': State, t: nat) {
    && t in s.emitters && s.emitters[t].pc.InClone?
    && var id := s.emitters[t].pc.id;
       && id !in s.clones
       && s' == s.(clones := s.clones[id := Clone(s.emitters[t].cb, AtBuilder)])
  }

  predicate AtWork(p: Phase) { p == AtBuilder || p == Building || p == Finished }

  /** `clone_redirect` returns once the builder is done with the clone, if there was one. */
  predicate CloneReturns(s: State, s': State, t: nat, failed: bool) {
    && t in s.emitters && s.emitters[t].pc.InClone?
    && var (e, id) := (s.emitters[t], s.emitters[t].pc.id);
       && (id in s.clones ==> !AtWork(s.clones[id].phase))
       && s' == s.(emitters := s.emitters[t := e.(cb := e.original, pc := Returned(id, failed, id in s.requests))])
  }

  /** A read through the pointer found earlier: once the entry is gone the memory may hold anything. */
  predicate Reads(s: State, id: u64, present: bool, seen: nat) {
    present && id in s.requests ==> seen == s.requests[id].state
  }

  predicate CountOutcome(s: State, s': State, t: nat, seen: nat) {
    && t in s.emitters && s.emitters[t].pc.Returned?
    && var (e, id, present) := (s.emitters[t], s.emitters[t].pc.id, s.emitters[t].pc.present);
       && Reads(s, id, present, seen)
       && var moved := s.(emitters := s.emitters[t := e.(pc := Counted(id, present))]);
          s' == if !e.pc.failed && (!present || seen >= 2) then
                  moved.(submitOk := s.submitOk + 1, submitted := s.submitted + {id})
                else moved
  }

  predicate Decide(s: State, s': State, t: nat, seen: nat) {
    && t in s.emitters && s.emitters[t].pc.Counted?
    && var (e, id, present) := (s.emitters[t], s.emitters[t].pc.id, s.emitters[t].pc.present);
       && Reads(s, id, present, seen)
       && s' == s.(emitters := s.emitters[t := e.(pc := Decided(id, !present || seen != 2))])
  }

  predicate Finish(s: State, s': State, t: nat) {
    && t in s.emitters && s.emitters[t].pc.Decided?
    && var e := s.emitters[t];
       s' == s.(emitters := s.emitters[t := e.(pc := Ready)],
                requests := if e.pc.delete then s.requests - {e.pc.id} else s.requests)
  }

  // ---------- builder steps ----------

  /** Any of the builder's own checks, a failed build, or a lease that ran out: the clone is dropped. */
  predicate BuilderDrops(s: State, s': State, k: u64) {
    && k in s.clones && (s.clones[k].phase == AtBuilder || s.clones[k].phase == Building)
    && s' == s.(clones := s.clones[k := s.clones[k].(phase := Refused)])
  }

  /** The compare-and-swap from 0 to 1. */
  predicate BuilderTakes(s: State, s': State, k: u64) {
    && k in s.clones && s.clones[k].phase == AtBuilder
    && var id := Unpack(s.clones[k].cb);
       && id in s.requests && s.requests[id].state == 0
       && s.requests[id].ifindex in s.interfaces && s.interfaces[s.requests[id].ifindex] == s.requests[id].ifgen
       && s' == s.(requests := s.requests[id := s.requests[id].(state := 1)],
                   clones := s.clones[k := s.clones[k].(phase := Building)], taken := s.taken + multiset{id})
  }

  predicate BuildSucceeds(s: State, s': State, k: u64) {
    && k in s.clones && s.clones[k].phase == Building
    && s' == s.(clones := s.clones[k := s.clones[k].(phase := Finished)],
                buildOk := s.buildOk + 1, built := s.built + {Unpack(s.clones[k].cb)})
  }

  predicate Submits(s: State, s': State, k: u64) {
    && k in s.clones && s.clones[k].phase == Finished
    && var id := Unpack(s.clones[k].cb);
       && id in s.requests
       && s' == s.(requests := s.requests[id := s.requests[id].(state := 2)],
                   clones := s.clones[k := s.clones[k].(phase := Redirected(s.requests[id].ifindex))])
  }

  // ---------- consumer and environment steps ----------

  /** A redirected clone at the WAN hook: the consumer's compare-and-swap, restore and delete are one step. */
  predicate AtHook(s: State, s': State, k: u64) {
    && k in s.clones && s.clones[k].phase.Redirected?
    && match Observe(s, s.clones[k].cb, s.clones[k].phase.ifindex)
       case Spends(id, cb) =>
         s' == s.(requests := s.requests - {id}, spent := s.spent + multiset{id},
                  clones := s.clones[k := Clone(cb, Passed(cb))])
       case Shoots => s' == s.(clones := s.clones[k := s.clones[k].(phase := Shot)])
       case FallsThrough => s' == s.(clones := s.clones[k := s.clones[k].(phase := Retriggered)])
  }

  predicate InFlight(s: State, cb: Cb) {
    exists k :: k in s.clones && s.clones[k].cb == cb
      && (s.clones[k].phase.Redirected? || s.clones[k].phase.Lost? || s.clones[k].phase.Shot?)
  }

  /** Any other packet at the hook; its control block is not that of a clone under way. */
  predicate RealAtHook(s: State, s': State, cb: Cb, ifindex: u32) {
    && !InFlight(s, cb)
    && s' == s.(shotReal := s.shotReal + if Observe(s, cb, ifindex).FallsThrough? then 0 else 1)
  }

  predicate Loses(s: State, s': State, k: u64) {
    && k in s.clones && s.clones[k].phase.Redirected?
    && s' == s.(clones := s.clones[k := s.clones[k].(phase := Lost)])
  }

  predicate InterfacesChange(s: State, s': State) {
    s' == s.(interfaces := s'.interfaces)
  }

  /** The steps, named. */
  datatype Action =
    | DoBegin(t: nat, cb: Cb, ifindex: u32, copies: nat) | DoAttempt(t: nat, inserted: bool) | DoStop(t: nat)
    | DoMakeClone(t: nat) | DoReturn(t: nat, failed: bool) | DoCount(t: nat, seen: nat) | DoDecide(t: nat, seen: nat)
    | DoFinish(t: nat) | DoDrop(k: u64) | DoTake(k: u64) | DoSucceed(k: u64) | DoSubmit(k: u64)
    | DoHook(k: u64) | DoReal(cb: Cb, ifindex: u32) | DoLose(k: u64) | DoInterfaces

  predicate Step(s: State, a: Action, s': State) {
    match a
    case DoBegin(t, cb, ifindex, copies) => Begin(s, s', t, cb, ifindex, copies)
    case DoAttempt(t, inserted) => Attempt(s, s', t, inserted)
    case DoStop(t) => Stop(s, s', t)
    case DoMakeClone(t) => MakeClone(s, s', t)
    case DoReturn(t, failed) => CloneReturns(s, s', t, failed)
    case DoCount(t, seen) => CountOutcome(s, s', t, seen)
    case DoDecide(t, seen) => Decide(s, s', t, seen)
    case DoFinish(t) => Finish(s, s', t)
    case DoDrop(k) => BuilderDrops(s, s', k)
    case DoTake(k) => BuilderTakes(s, s', k)
    case DoSucceed(k) => BuildSucceeds(s, s', k)
    case DoSubmit(k) => Submits(s, s', k)
    case DoHook(k) => AtHook(s, s', k)
    case DoReal(cb, ifindex) => RealAtHook(s, s', cb, ifindex)
    case DoLose(k) => Loses(s, s', k)
    case DoInterfaces => InterfacesChange(s, s')
  }

  // ---------- the invariant ----------

  predicate Holds(e: Emitter, id: u64) {
    (e.pc.InClone? || e.pc.Returned? || e.pc.Counted? || e.pc.Decided?) && e.pc.id == id
  }

  predicate Held(s: State, id: u64) {
    id in s.owner && s.owner[id].emitter in s.emitters && Holds(s.emitters[s.owner[id].emitter], id)
  }

  predicate HeldInClone(s: State, id: u64) {
    id in s.owner && s.owner[id].emitter in s.emitters && s.emitters[s.owner[id].emitter].pc == InClone(id)
  }

  predicate PhaseOk(s: State, id: u64, p: Phase)
    requires id in s.owner
  {
    var live := id in s.requests;
    match p
    case AtBuilder => HeldInClone(s, id) && live && s.requests[id].state == 0 && id !in s.built
    case Building => HeldInClone(s, id) && live && s.requests[id].state == 1 && id !in s.built
    case Finished => HeldInClone(s, id) && live && s.requests[id].state == 1 && id in s.built
    case Redirected(ifindex) => live && s.requests[id].state == 2 && s.requests[id].ifindex == ifindex && id in s.built
    case Shot => live && s.requests[id].state == 2 && id in s.built
    case Lost => live && s.requests[id].state == 2 && id in s.built
    case Refused => id !in s.built && (live ==> s.requests[id].state <= 1)
    case Passed(cb) => !live && id in s.built && id in s.spent && cb == s.owner[id].cb
    case Retriggered => false
  }

  predicate EntryOk(s: State, id: u64) {
    id in s.requests ==>
      var n := s.requests[id].state;
      && id in s.owner && s.requests[id].saved == s.owner[id].cb && id !in s.spent && n <= 2
      && (n == 0 ==> id !in s.taken) && (n == 2 <==> id in s.clones && !AtWork(s.clones[id].phase) && id in s.built)
      && (n >= 1 ==> id in s.clones) && (n != 2 ==> Held(s, id))
  }

  predicate IdOk(s: State, id: u64) {
    && EntryOk(s, id)
    && (id in s.owner ==> id <= s.sequence)
    && (id in s.clones ==> id in s.owner && PhaseOk(s, id, s.clones[id].phase))
    && (id in s.clones && !s.clones[id].phase.Passed? ==> s.clones[id].cb == Pack(id))
    && s.taken[id] <= 1 && s.spent[id] <= 1
    && (id in s.taken || id in s.built || id in s.spent || id in s.submitted ==> id in s.owner)
    && (id in s.spent ==> id in s.built && id !in s.requests)
    && (id in s.submitted ==> id in s.built)
    && (id in s.built ==> id in s.clones)
  }

  predicate EmitterOk(s: State, t: nat) {
    t in s.emitters ==>
      var e := s.emitters[t];
      && (e.pc.InClone? ==> e.cb == Pack(e.pc.id) && e.pc.id !in s.submitted
                            && e.pc.id in s.owner && s.owner[e.pc.id].cb == e.original)
      && (!e.pc.InClone? ==> e.cb == e.original)
      && (forall id :: Holds(e, id) ==>
            id in s.owner && s.owner[id].emitter == t && (id in s.requests || id in s.spent))
      && (e.pc.Returned? || e.pc.Counted? || e.pc.Decided? ==>
            e.pc.id in s.clones ==> !AtWork(s.clones[e.pc.id].phase))
      && (e.pc.Returned? ==> e.pc.id !in s.submitted && (e.pc.present || e.pc.id in s.spent))
      && (e.pc.Counted? ==> e.pc.present || e.pc.id in s.spent)
      && (e.pc.Decided? && e.pc.id in s.requests ==> (e.pc.delete <==> s.requests[e.pc.id].state != 2))
  }

  predicate GlobalOk(s: State) {
    && s.buildOk == |s.built| && s.submitOk == |s.submitted| && s.shotReal == 0
    && |s.requests| <= CAPACITY
  }

  ghost predicate Inv(s: State) {
    && GlobalOk(s)
    && (forall id: u64 :: IdOk(s, id))
    && (forall t: nat :: EmitterOk(s, t))
  }

  lemma InitInv(s: State)
    requires Init(s)
    ensures Inv(s)
  {
  }

  lemma {:induction false} StepBegin(s: State, s': State, t: nat, cb: Cb, ifindex: u32, copies: nat)
    requires Inv(s) && Begin(s, s', t, cb, ifindex, copies)
    ensures Inv(s')
  {
    assert EmitterOk(s, t);
    forall id: u64 ensures IdOk(s', id) { assert IdOk(s, id); }
    forall u: nat ensures EmitterOk(s', u) { assert EmitterOk(s, u); }
  }

  lemma {:induction false} UnusedId(s: State)
    requires Inv(s) && s.sequence + 1 < U64
    ensures NextId(s) !in s.owner && NextId(s) !in s.requests && NextId(s) !in s.submitted
  {
    assert IdOk(s, NextId(s));
  }

  lemma {:induction false} AttemptId(s: State, s': State, t: nat, inserted: bool, id: u64)
    requires Inv(s) && Attempt(s, s', t, inserted)
    ensures IdOk(s', id)
  {
    assert IdOk(s, id);
    assert EmitterOk(s, t) && IdOk(s, NextId(s));
  }

  lemma {:induction false} AttemptEmitter(s: State, s': State, t: nat, inserted: bool, u: nat)
    requires Inv(s) && Attempt(s, s', t, inserted)
    ensures EmitterOk(s', u)
  {
    hide PhaseOk, EntryOk, IdOk;
    assert EmitterOk(s, t) && EmitterOk(s, u);
    UnusedId(s);
  }

  lemma {:induction false} StepAttempt(s: State, s': State, t: nat, inserted: bool)
    requires Inv(s) && Attempt(s, s', t, inserted)
    ensures Inv(s')
  {
    hide IdOk, EmitterOk;
    forall id: u64 ensures IdOk(s', id) { AttemptId(s, s', t, inserted, id); }
    forall u: nat ensures EmitterOk(s', u) { AttemptEmitter(s, s', t, inserted, u); }
  }

  lemma {:induction false} StepStop(s: State, s': State, t: nat)
    requires Inv(s) && Stop(s, s', t)
    ensures Inv(s')
  {
    assert EmitterOk(s, t);
    forall id: u64 ensures IdOk(s', id) { assert IdOk(s, id); }
    forall u: nat ensures EmitterOk(s', u) { assert EmitterOk(s, u); }
  }

  lemma {:induction false} StepMakeClone(s: State, s': State, t: nat)
    requires Inv(s) && MakeClone(s, s', t)
    ensures Inv(s')
  {
    assert EmitterOk(s, t) && Holds(s.emitters[t], s.emitters[t].pc.id);
    assert IdOk(s, s.emitters[t].pc.id);
    forall id: u64 ensures IdOk(s', id) { assert IdOk(s, id); }
    forall u: nat ensures EmitterOk(s', u) { assert EmitterOk(s, u); }
  }

  lemma {:induction false} StepCloneReturns(s: State, s': State, t: nat, failed: bool)
    requires Inv(s) && CloneReturns(s, s', t, failed)
    ensures Inv(s')
  {
    assert EmitterOk(s, t);
    forall id: u64 ensures IdOk(s', id) { assert IdOk(s, id); }
    forall u: nat ensures EmitterOk(s', u) { assert EmitterOk(s, u); }
  }

  lemma {:induction false} UnsubmittedYet(s: State, t: nat)
    requires EmitterOk(s, t) && t in s.emitters && s.emitters[t].pc.Returned?
    ensures s.emitters[t].pc.id !in s.submitted
  {
  }

  /** What the producer counts as submitted was built. */
  lemma {:induction false} SubmittedIsBuilt(s: State, t: nat, seen: nat)
    requires t in s.emitters && s.emitters[t].pc.Returned? && EmitterOk(s, t) && IdOk(s, s.emitters[t].pc.id)
    requires Reads(s, s.emitters[t].pc.id, s.emitters[t].pc.present, seen)
    ensures var pc := s.emitters[t].pc;
            && pc.id in s.owner && s.owner[pc.id].emitter == t
            && (!pc.present || seen >= 2 ==> pc.id in s.built)
  {
    assert Holds(s.emitters[t], s.emitters[t].pc.id);
  }

  lemma {:induction false} SameHolding(s: State, s': State, t: nat, seen: nat, id: u64)
    requires CountOutcome(s, s', t, seen)
    ensures Held(s', id) == Held(s, id) && HeldInClone(s', id) == HeldInClone(s, id)
  {
  }

  /** What counting an outcome leaves alone. */
  lemma {:induction false} CountOutcomeFrame(s: State, s': State, t: nat, seen: nat)
    requires CountOutcome(s, s', t, seen)
    ensures s' == s.(emitters := s'.emitters, submitOk := s'.submitOk, submitted := s'.submitted)
    ensures var e := s.emitters[t];
            && s'.emitters == s.emitters[t := e.(pc := Counted(e.pc.id, e.pc.present))]
            && (s'.submitted == s.submitted
                || (s'.submitted == s.submitted + {e.pc.id} && (!e.pc.present || seen >= 2)))
  {
    hide Reads;
  }

  lemma {:induction false} CountOutcomeId(s: State, s': State, t: nat, seen: nat, id: u64)
    requires Inv(s) && CountOutcome(s, s', t, seen)
    ensures IdOk(s', id)
  {
    assert EmitterOk(s, t) && IdOk(s, id) && IdOk(s, s.emitters[t].pc.id);
    SubmittedIsBuilt(s, t, seen);
    CountOutcomeFrame(s, s', t, seen);
    SameHolding(s, s', t, seen, id);
    SameEntry(s, s', id);
    hide Held, HeldInClone, Reads, CountOutcome, Inv, EntryOk, PhaseOk, EmitterOk;
  }

  /** An entry and its clone look at requests, clones, owners and counters, and at who holds the request. */
  lemma {:induction false} SameEntry(s: State, s': State, id: u64)
    requires s' == s.(emitters := s'.emitters, submitOk := s'.submitOk, submitted := s'.submitted)
    requires Held(s', id) == Held(s, id) && HeldInClone(s', id) == HeldInClone(s, id)
    ensures EntryOk(s', id) == EntryOk(s, id)
    ensures id in s.owner && id in s.clones ==>
      PhaseOk(s', id, s.clones[id].phase) == PhaseOk(s, id, s.clones[id].phase)
  {
    hide Held, HeldInClone;
  }

  lemma {:induction false} CountOutcomeEmitter(s: State, s': State, t: nat, seen: nat, u: nat)
    requires Inv(s) && CountOutcome(s, s', t, seen)
    ensures EmitterOk(s', u)
  {
    assert EmitterOk(s, t) && EmitterOk(s, u);
    CountOutcomeFrame(s, s', t, seen);
    hide Reads, CountOutcome, Inv;
    assert Holds(s.emitters[t], s.emitters[t].pc.id);
    if u in s.emitters && u != t { OtherEmitter(s, s', s.emitters[t].pc.id, t, u); }
  }

  /** Marking another producer's request as submitted does not concern a producer. */
  lemma {:induction false} OtherEmitter(s: State, s': State, id: u64, t: nat, u: nat)
    requires u in s.emitters && u in s'.emitters && s'.emitters[u] == s.emitters[u] && EmitterOk(s, u)
    requires id in s.owner && s.owner[id].emitter == t != u
    requires s' == s.(emitters := s'.emitters, submitOk := s'.submitOk, submitted := s'.submitted)
    requires s'.submitted == s.submitted || s'.submitted == s.submitted + {id}
    ensures EmitterOk(s', u)
  {
    if s.emitters[u].pc.InClone? || s.emitters[u].pc.Returned? { assert Holds(s.emitters[u], s.emitters[u].pc.id); }
  }

  lemma {:induction false} StepCountOutcome(s: State, s': State, t: nat, seen: nat)
    requires Inv(s) && CountOutcome(s, s', t, seen)
    ensures Inv(s')
  {
    hide IdOk, EmitterOk;
    forall id: u64 ensures IdOk(s', id) { CountOutcomeId(s, s', t, seen, id); }
    forall u: nat ensures EmitterOk(s', u) { CountOutcomeEmitter(s, s', t, seen, u); }
    assert GlobalOk(s') by {
      var id := s.emitters[t].pc.id;
      assert id !in s.submitted by { assert EmitterOk(s, t); UnsubmittedYet(s, t); }
    }
  }

  lemma {:induction false} StepDecide(s: State, s': State, t: nat, seen: nat)
    requires Inv(s) && Decide(s, s', t, seen)
    ensures Inv(s')
  {
    assert EmitterOk(s, t) && Holds(s.emitters[t], s.emitters[t].pc.id);
    assert IdOk(s, s.emitters[t].pc.id);
    forall id: u64 ensures IdOk(s', id) { assert IdOk(s, id); }
    forall u: nat ensures EmitterOk(s', u) { assert EmitterOk(s, u); }
  }

  lemma {:induction false} FinishId(s: State, s': State, t: nat, id: u64)
    requires Inv(s) && Finish(s, s', t)
    ensures IdOk(s', id)
  {
    assert EmitterOk(s, t) && IdOk(s, id) && Holds(s.emitters[t], s.emitters[t].pc.id);
    hide Inv;
  }

  lemma {:induction false} EmitterAt(s: State, t: nat)
    requires Inv(s)
    ensures EmitterOk(s, t)
  {
    hide IdOk, EmitterOk, GlobalOk;
  }

  lemma {:induction false} FinishEmitter(s: State, s': State, t: nat, u: nat)
    requires Inv(s) && Finish(s, s', t)
    ensures EmitterOk(s', u)
  {
    hide Inv;
    EmitterAt(s, t);
    EmitterAt(s, u);
    assert Holds(s.emitters[t], s.emitters[t].pc.id);
  }

  lemma {:induction false} StepFinish(s: State, s': State, t: nat)
    requires Inv(s) && Finish(s, s', t)
    ensures Inv(s')
  {
    hide IdOk, EmitterOk;
    forall id: u64 ensures IdOk(s', id) { FinishId(s, s', t, id); }
    forall u: nat ensures EmitterOk(s', u) { FinishEmitter(s, s', t, u); }
  }

  lemma {:induction false} StepBuilderDrops(s: State, s': State, k: u64)
    requires Inv(s) && BuilderDrops(s, s', k)
    ensures Inv(s')
  {
    assert IdOk(s, k);
    Unpacked(k);
    forall id: u64 ensures IdOk(s', id) { assert IdOk(s, id); }
    forall u: nat ensures EmitterOk(s', u) { assert EmitterOk(s, u); }
  }

  lemma {:induction false} StepBuilderTakes(s: State, s': State, k: u64)
    requires Inv(s) && BuilderTakes(s, s', k)
    ensures Inv(s')
  {
    assert IdOk(s, k);
    Unpacked(k);
    forall id: u64 ensures IdOk(s', id) { assert IdOk(s, id); }
    forall u: nat ensures EmitterOk(s', u) { assert EmitterOk(s, u); }
  }

  lemma {:induction false} StepBuildSucceeds(s: State, s': State, k: u64)
    requires Inv(s) && BuildSucceeds(s, s', k)
    ensures Inv(s')
  {
    assert IdOk(s, k);
    Unpacked(k);
    forall id: u64 ensures IdOk(s', id) { assert IdOk(s, id); }
    forall u: nat ensures EmitterOk(s', u) { assert EmitterOk(s, u); }
  }

  lemma {:induction false} StepSubmits(s: State, s': State, k: u64)
    requires Inv(s) && Submits(s, s', k)
    ensures Inv(s')
  {
    assert IdOk(s, k);
    Unpacked(k);
    forall id: u64 ensures IdOk(s', id) { assert IdOk(s, id); }
    forall u: nat ensures EmitterOk(s', u) { assert EmitterOk(s, u); }
  }

  lemma {:induction false} StepAtHook(s: State, s': State, k: u64)
    requires Inv(s) && AtHook(s, s', k)
    ensures Inv(s')
  {
    assert IdOk(s, k);
    Unpacked(k);
    forall id: u64 ensures IdOk(s', id) { assert IdOk(s, id); }
    forall u: nat ensures EmitterOk(s', u) { assert EmitterOk(s, u); }
  }

  /** Only the credential of a clone under way gets an answer other than falling through. */
  lemma {:induction false} OnlyClonesAnswered(s: State, cb: Cb, ifindex: u32)
    requires Inv(s) && !InFlight(s, cb)
    ensures Observe(s, cb, ifindex).FallsThrough?
  {
    var id := Unpack(cb);
    Repacked(cb);
    assert IdOk(s, id);
  }

  lemma {:induction false} StepRealAtHook(s: State, s': State, cb: Cb, ifindex: u32)
    requires Inv(s) && RealAtHook(s, s', cb, ifindex)
    ensures Inv(s')
  {
    OnlyClonesAnswered(s, cb, ifindex);
    forall id: u64 ensures IdOk(s', id) { assert IdOk(s, id); }
    forall u: nat ensures EmitterOk(s', u) { assert EmitterOk(s, u); }
  }

  lemma {:induction false} StepLoses(s: State, s': State, k: u64)
    requires Inv(s) && Loses(s, s', k)
    ensures Inv(s')
  {
    assert IdOk(s, k);
    Unpacked(k);
    forall id: u64 ensures IdOk(s', id) { assert IdOk(s, id); }
    forall u: nat ensures EmitterOk(s', u) { assert EmitterOk(s, u); }
  }

  lemma {:induction false} StepInterfacesChange(s: State, s': State)
    requires Inv(s) && InterfacesChange(s, s')
    ensures Inv(s')
  {
    forall id: u64 ensures IdOk(s', id) { assert IdOk(s, id); }
    forall u: nat ensures EmitterOk(s', u) { assert EmitterOk(s, u); }
  }

  lemma {:induction false} StepKeeps(s: State, a: Action, s': State)
    requires Inv(s) && Step(s, a, s')
    ensures Inv(s')
  {
    hide Inv;
    match a
    case DoBegin(t, cb, ifindex, copies) => StepBegin(s, s', t, cb, ifindex, copies);
    case DoAttempt(t, inserted) => StepAttempt(s, s', t, inserted);
    case DoStop(t) => StepStop(s, s', t);
    case DoMakeClone(t) => StepMakeClone(s, s', t);
    case DoReturn(t, failed) => StepCloneReturns(s, s', t, failed);
    case DoCount(t, seen) => StepCountOutcome(s, s', t, seen);
    case DoDecide(t, seen) => StepDecide(s, s', t, seen);
    case DoFinish(t) => StepFinish(s, s', t);
    case DoDrop(k) => StepBuilderDrops(s, s', k);
    case DoTake(k) => StepBuilderTakes(s, s', k);
    case DoSucceed(k) => StepBuildSucceeds(s, s', k);
    case DoSubmit(k) => StepSubmits(s, s', k);
    case DoHook(k) => StepAtHook(s, s', k);
    case DoReal(cb, ifindex) => StepRealAtHook(s, s', cb, ifindex);
    case DoLose(k) => StepLoses(s, s', k);
    case DoInterfaces => StepInterfacesChange(s, s');
  }

  // ---------- runs ----------

  /** A run: every state after the first comes from the one before by some step. */
  ghost predicate Run(states: seq<State>) {
    && |states| > 0 && Init(states[0])
    && forall i :: 0 < i < |states| ==> Follows(states[i - 1], states[i])
  }

  ghost predicate Follows(s: State, s': State) {
    exists a :: Step(s, a, s')
  }

  lemma {:induction false} Reachable(states: seq<State>, i: nat)
    requires Run(states) && i < |states|
    ensures Inv(states[i])
  {
    hide Inv, Step, Init;
    if i == 0 {
      InitInv(states[0]);
    } else {
      Reachable(states, i - 1);
      assert Follows(states[i - 1], states[i]);
      var a :| Step(states[i - 1], a, states[i]);
      StepKeeps(states[i - 1], a, states[i]);
    }
  }

  /** The entry's state word goes from 0 to 1. */
  predicate ToTaken(s: State, s': State, id: u64) {
    id in s.requests && s.requests[id].state == 0 && id in s'.requests && s'.requests[id].state == 1
  }

  /** A submitted entry disappears: its state word went from 2 to 3. */
  predicate ToSpent(s: State, s': State, id: u64) {
    id in s.requests && s.requests[id].state == 2 && id !in s'.requests
  }

  /** The bookkeeping counts exactly those transitions, and an entry moves in no other way. */
  predicate Tallied(s: State, s': State, id: u64) {
    && s'.taken[id] == s.taken[id] + (if ToTaken(s, s', id) then 1 else 0)
    && s'.spent[id] == s.spent[id] + (if ToSpent(s, s', id) then 1 else 0)
    && (id in s.requests && id in s'.requests && s'.requests[id].state != s.requests[id].state ==>
          s.requests[id].state < 2 && s'.requests[id].state == s.requests[id].state + 1)
    && (id !in s.requests && id in s'.requests ==> s'.requests[id].state == 0 && id !in s.owner)
  }

  lemma {:induction false} AttemptTallied(s: State, s': State, t: nat, inserted: bool, id: u64)
    requires IdOk(s, NextId(s)) && Attempt(s, s', t, inserted)
    ensures Tallied(s, s', id)
  {
  }

  lemma {:induction false} FinishTallied(s: State, s': State, t: nat, id: u64)
    requires EmitterOk(s, t) && Finish(s, s', t)
    ensures Tallied(s, s', id)
  {
  }

  lemma {:induction false} TakeTallied(s: State, s': State, k: u64, id: u64)
    requires BuilderTakes(s, s', k)
    ensures Tallied(s, s', id)
  {
  }

  lemma {:induction false} SubmitTallied(s: State, s': State, k: u64, id: u64)
    requires IdOk(s, k) && Submits(s, s', k)
    ensures Tallied(s, s', id)
  {
    Unpacked(k);
  }

  lemma {:induction false} HookTallied(s: State, s': State, k: u64, id: u64)
    requires AtHook(s, s', k)
    ensures Tallied(s, s', id)
  {
  }

  lemma {:induction false} OthersTallied(s: State, a: Action, s': State, id: u64)
    requires Step(s, a, s')
    requires !a.DoAttempt? && !a.DoFinish? && !a.DoTake? && !a.DoSubmit? && !a.DoHook?
    ensures Tallied(s, s', id)
  {
    assert s'.requests == s.requests && s'.taken == s.taken && s'.spent == s.spent;
  }

  lemma {:induction false} TransitionsCounted(s: State, s': State, id: u64)
    requires Inv(s) && Follows(s, s')
    ensures Tallied(s, s', id)
  {
    hide Tallied, IdOk, EmitterOk, GlobalOk, Attempt, Finish, BuilderTakes, Submits, AtHook;
    var a :| Step(s, a, s');
    match a
    case DoAttempt(t, inserted) => AttemptTallied(s, s', t, inserted, id);
    case DoFinish(t) => FinishTallied(s, s', t, id);
    case DoTake(k) => TakeTallied(s, s', k, id);
    case DoSubmit(k) => SubmitTallied(s, s', k, id);
    case DoHook(k) => HookTallied(s, s', k, id);
    case _ => OthersTallied(s, a, s', id);
  }

  lemma {:induction false} CountersGrow(states: seq<State>, i: nat, j: nat, id: u64)
    requires Run(states) && i <= j < |states|
    ensures states[i].taken[id] <= states[j].taken[id] <= 1
    ensures states[i].spent[id] <= states[j].spent[id] <= 1
    decreases j
  {
    hide Step, Init, ToTaken, ToSpent;
    Reachable(states, j);
    assert IdOk(states[j], id);
    if i < j {
      CountersGrow(states, i, j - 1, id);
      Reachable(states, j - 1);
      assert Follows(states[j - 1], states[j]);
      TransitionsCounted(states[j - 1], states[j], id);
    }
  }

  /** Over a whole run, no id is taken twice and none is spent twice. */
  lemma {:induction false} OneShot(states: seq<State>, i: nat, j: nat, id: u64)
    requires Run(states) && i < j && j + 1 < |states|
    ensures !(ToTaken(states[i], states[i + 1], id) && ToTaken(states[j], states[j + 1], id))
    ensures !(ToSpent(states[i], states[i + 1], id) && ToSpent(states[j], states[j + 1], id))
  {
    hide Step, Init, ToTaken, ToSpent, Inv;
    Reachable(states, i);
    Reachable(states, j);
    assert Follows(states[i], states[i + 1]) && Follows(states[j], states[j + 1]);
    TransitionsCounted(states[i], states[i + 1], id);
    TransitionsCounted(states[j], states[j + 1], id);
    CountersGrow(states, i + 1, j, id);
    CountersGrow(states, j, j + 1, id);
    assert states[i].taken[id] >= 0 && states[i].spent[id] >= 0;
  }

  /** A fake at the WAN hook is always recognised: it is spent, getting back its packet's control block, or shot. */
  lemma {:induction false} FakesRecognised(states: seq<State>, i: nat, k: u64)
    requires Run(states) && i < |states|
    requires k in states[i].clones && states[i].clones[k].phase.Redirected?
    ensures var s := states[i]; var v := Observe(s, s.clones[k].cb, s.clones[k].phase.ifindex);
            && k in s.requests && s.requests[k].state == 2 && k in s.owner
            && (v == Verdict.Spends(k, s.owner[k].cb) || v == Shoots)
  {
    Reachable(states, i);
    assert IdOk(states[i], k);
    Unpacked(k);
  }

  /** A request no producer holds any more is one whose fake was built and not spent. */
  lemma {:induction false} LeftoversAreBuilt(states: seq<State>, i: nat, id: u64)
    requires Run(states) && i < |states|
    requires id in states[i].requests && !Held(states[i], id)
    ensures var s := states[i];
            && s.requests[id].state == 2 && id in s.built && id !in s.spent && id in s.clones
            && (s.clones[id].phase.Redirected? || s.clones[id].phase.Lost? || s.clones[id].phase.Shot?)
  {
    Reachable(states, i);
    assert IdOk(states[i], id);
  }

  /** Outside `clone_redirect` the original packet carries its own control block, which no step replaces. */
  lemma {:induction false} OriginalRestored(states: seq<State>, i: nat, t: nat)
    requires Run(states) && i < |states| && t in states[i].emitters && !states[i].emitters[t].pc.InClone?
    ensures states[i].emitters[t].cb == states[i].emitters[t].original
  {
    Reachable(states, i);
    assert EmitterOk(states[i], t);
  }

  predicate ByProducer(a: Action) {
    a.DoBegin? || a.DoAttempt? || a.DoStop? || a.DoReturn? || a.DoCount? || a.DoDecide? || a.DoFinish?
  }

  lemma {:induction false} EmittersKept(s: State, a: Action, s': State)
    requires Step(s, a, s') && !ByProducer(a)
    ensures s'.emitters == s.emitters
  {
    hide Observe, Unpack, InFlight;
  }

  lemma {:induction false} OriginalFixed(s: State, a: Action, s': State, t: nat)
    requires Step(s, a, s') && t in s.emitters && !(a.DoBegin? && a.t == t)
    ensures t in s'.emitters && s'.emitters[t].original == s.emitters[t].original
  {
    hide Reads;
    if !ByProducer(a) {
      EmittersKept(s, a, s');
      hide Step;
    }
  }

  /** No real packet is shot, the counters stay ordered and the request map stays within its 256 entries. */
  lemma {:induction false} Totals(states: seq<State>, i: nat)
    requires Run(states) && i < |states|
    ensures states[i].shotReal == 0
    ensures states[i].submitOk <= states[i].buildOk
    ensures |states[i].requests| <= CAPACITY
  {
    var s := states[i];
    Reachable(states, i);
    assert s.submitted <= s.built by {
      forall id | id in s.submitted ensures id in s.built { assert IdOk(s, id); }
    }
    Within(s.submitted, s.built);
  }

  lemma {:induction false} Within(a: set<u64>, b: set<u64>)
    requires a <= b
    ensures |a| <= |b|
  {
    if a != {} {
      var x :| x in a;
      Within(a - {x}, b - {x});
    }
  }
}
