/**
 How long a request stays in the map: the entries that can still leave it, those that
 never do, and the map they fill (ebpf/bpf/observer.bpf.c:52-103).
 */
module RequestLifetime {
  import opened Bytes
  import opened RequestProtocol

  // ---------- what is never deleted ----------

  /** A submitted entry whose fake was lost on the way, or shot at the hook. */
  predicate Stuck(s: State, id: u64) {
    id in s.requests && s.requests[id].state == 2 && id in s.clones
        && (s.clones[id].phase.Lost? || s.clones[id].phase.Shot?)
  }

  /** No step deletes a stuck entry: producers keep what is submitted, and the consumer never sees its fake again. */
  lemma {:induction false} StuckStays(s: State, s': State, id: u64)
    requires Inv(s) && Follows(s, s') && Stuck(s, id)
    ensures Stuck(s', id)
  {
    hide Inv, Step;
    var a :| Step(s, a, s');
    match a
    case DoAttempt(t, inserted) => StuckAttempt(s, s', t, inserted, id);
    case DoFinish(t) => StuckFinish(s, s', t, id);
    case DoHook(k) => StuckHook(s, s', k, id);
    case DoTake(k) => StuckTake(s, s', k, id);
    case DoSubmit(k) => StuckSubmit(s, s', k, id);
    case _ => StuckOther(s, a, s', id);
  }

  lemma {:induction false} StuckAttempt(s: State, s': State, t: nat, inserted: bool, id: u64)
    requires Inv(s) && Step(s, DoAttempt(t, inserted), s') && Stuck(s, id)
    ensures Stuck(s', id)
  {
    hide IdOk, EmitterOk, GlobalOk;
    UnusedId(s);
  }

  lemma {:induction false} StuckFinish(s: State, s': State, t: nat, id: u64)
    requires Inv(s) && Step(s, DoFinish(t), s') && Stuck(s, id)
    ensures Stuck(s', id)
  {
    hide IdOk, GlobalOk;
    assert EmitterOk(s, t);
  }

  lemma {:induction false} StuckHook(s: State, s': State, k: u64, id: u64)
    requires Inv(s) && Step(s, DoHook(k), s') && Stuck(s, id)
    ensures Stuck(s', id)
  {
    hide EmitterOk, GlobalOk, PhaseOk, EntryOk;
    assert IdOk(s, k);
    Unpacked(k);
  }

  lemma {:induction false} StuckTake(s: State, s': State, k: u64, id: u64)
    requires Inv(s) && Step(s, DoTake(k), s') && Stuck(s, id)
    ensures Stuck(s', id)
  {
    hide EmitterOk, GlobalOk, PhaseOk, EntryOk;
    assert IdOk(s, k);
    Unpacked(k);
  }

  lemma {:induction false} StuckSubmit(s: State, s': State, k: u64, id: u64)
    requires Inv(s) && Step(s, DoSubmit(k), s') && Stuck(s, id)
    ensures Stuck(s', id)
  {
    hide EmitterOk, GlobalOk, PhaseOk, EntryOk;
    assert IdOk(s, k);
    Unpacked(k);
  }

  lemma {:induction false} StuckOther(s: State, a: Action, s': State, id: u64)
    requires Step(s, a, s') && Stuck(s, id) && !a.DoAttempt? && !a.DoFinish? && !a.DoHook?
    requires !a.DoTake? && !a.DoSubmit? && (a.DoMakeClone? ==> Inv(s))
    ensures Stuck(s', id)
  {
    hide Inv, Observe, Reads, InFlight, Unpack, Pack;
  }

  /** Over a run a stuck entry stays in the map for good. */
  lemma {:induction false} StuckForGood(states: seq<State>, i: nat, j: nat, id: u64)
    requires Run(states) && i <= j < |states| && Stuck(states[i], id)
    ensures Stuck(states[j], id)
    decreases j
  {
    hide Inv, Step, Init, Stuck;
    if i < j {
      StuckForGood(states, i, j - 1, id);
      Reachable(states, j - 1);
      assert Follows(states[j - 1], states[j]);
      StuckStays(states[j - 1], states[j], id);
    }
  }

  /** Once 256 entries are stuck, no later attempt finds room for a request. */
  lemma {:induction false} StuckEntriesExhaust(states: seq<State>, i: nat, j: nat, stuck: set<u64>, t: nat,
        inserted: bool)
    requires Run(states) && i <= j && j + 1 < |states|
    requires |stuck| == CAPACITY && forall id :: id in stuck ==> Stuck(states[i], id)
    requires Step(states[j], DoAttempt(t, inserted), states[j + 1])
    ensures !inserted && states[j + 1].requests == states[j].requests
  {
    hide Inv, Init, Follows;
    var s := states[j];
    forall id | id in stuck ensures id in s.requests { StuckForGood(states, i, j, id); }
    Within(stuck, s.requests.Keys);
  }

  // ---------- going on with a run ----------

  ghost function Last(h: seq<State>): State
    requires |h| > 0
  {
    h[|h| - 1]
  }

  /** A run that goes on from another one. */
  ghost predicate Extends(g: seq<State>, h: seq<State>) {
    Run(g) && 0 < |h| <= |g| && g[..|h|] == h
  }

  lemma {:induction false} OneMore(h: seq<State>, a: Action, next: State) returns (g: seq<State>)
    requires Run(h) && Step(Last(h), a, next)
    ensures g == h + [next] && Extends(g, h) && Last(g) == next
  {
    hide Step, Init;
    g := h + [next];
    assert Follows(Last(h), next);
    forall i | 0 < i < |g| ensures Follows(g[i - 1], g[i]) {
      assert i < |h| ==> Follows(h[i - 1], h[i]);
    }
  }

  lemma {:induction false} StillExtends(f: seq<State>, g: seq<State>, h: seq<State>)
    requires Extends(g, f) && Extends(h, g)
    ensures Extends(h, f)
  {
    assert h[..|f|] == h[..|g|][..|f|];
  }

  // ---------- every other entry can still be deleted ----------

  /** The run goes on to a state with the same sequence number and without this entry. */
  ghost predicate Drops(g: seq<State>, h: seq<State>, id: u64) {
    Extends(g, h) && Last(g).requests.Keys == Last(h).requests.Keys - {id} && Last(g).sequence == Last(h).sequence
  }

  lemma {:induction false} DropsLater(f: seq<State>, g: seq<State>, h: seq<State>, id: u64)
    requires Extends(g, f) && Drops(h, g, id)
    requires Last(g).requests.Keys == Last(f).requests.Keys && Last(g).sequence == Last(f).sequence
    ensures Drops(h, f, id)
  {
    StillExtends(f, g, h);
  }

  ghost predicate Stored(h: seq<State>, id: u64) { Run(h) && id in Last(h).requests }

  /** With its interface as it was, a redirected clone spends its request at the hook. */
  lemma {:induction false} DropAtHook(h: seq<State>, id: u64) returns (g: seq<State>)
    requires Stored(h, id) && id in Last(h).clones && Last(h).clones[id].phase.Redirected?
    ensures Drops(g, h, id)
  {
    hide Inv, Follows, Init;
    var s := Last(h);
    HookFacts(h, id);
    var r := s.requests[id];
    var s1 := s.(interfaces := s.interfaces[r.ifindex := r.ifgen]);
    var h1 := OneMore(h, DoInterfaces, s1);
    var s2 := s1.(requests := s.requests - {id}, spent := s.spent + multiset{id},
                  clones := s.clones[id := Clone(r.saved, Passed(r.saved))]);
    g := OneMore(h1, DoHook(id), s2);
    StillExtends(h, h1, g);
  }

  lemma {:induction false} HookFacts(h: seq<State>, id: u64)
    requires Stored(h, id) && id in Last(h).clones && Last(h).clones[id].phase.Redirected?
    ensures var s := Last(h);
            && Unpack(s.clones[id].cb) == id && s.requests[id].state == 2
            && s.requests[id].ifindex == s.clones[id].phase.ifindex
  {
    Reachable(h, |h| - 1);
    assert IdOk(Last(h), id);
    Unpacked(id);
  }

  /** A stored request that is not submitted is held by its producer, whose clone is not at work or is as stated. */
  lemma {:induction false} HeldFacts(h: seq<State>, id: u64)
    requires Stored(h, id) && Last(h).requests[id].state != 2
    ensures Held(Last(h), id)
    ensures var s := Last(h);
            var e := s.emitters[s.owner[id].emitter];
            && (e.pc.Returned? ==> e.pc.present)
            && (e.pc.Decided? ==> e.pc.delete)
            && (!e.pc.InClone? && id in s.clones ==> !AtWork(s.clones[id].phase))
            && (id in s.clones && AtWork(s.clones[id].phase) ==> Unpack(s.clones[id].cb) == id)
  {
    var s := Last(h);
    Reachable(h, |h| - 1);
    assert IdOk(s, id);
    assert EmitterOk(s, s.owner[id].emitter);
    Unpacked(id);
  }

  lemma {:induction false} DropDecided(h: seq<State>, id: u64) returns (g: seq<State>)
    requires Stored(h, id) && Last(h).requests[id].state != 2 && Held(Last(h), id)
    requires Last(h).emitters[Last(h).owner[id].emitter].pc.Decided?
    ensures Drops(g, h, id)
  {
    HeldFacts(h, id);
    hide Inv, Follows, Init;
    var s := Last(h);
    var t := s.owner[id].emitter;
    g := OneMore(h, DoFinish(t),
                 s.(emitters := s.emitters[t := s.emitters[t].(pc := Ready)], requests := s.requests - {id}));
  }

  lemma {:induction false} DropCounted(h: seq<State>, id: u64) returns (g: seq<State>)
    requires Stored(h, id) && Last(h).requests[id].state != 2 && Held(Last(h), id)
    requires Last(h).emitters[Last(h).owner[id].emitter].pc.Counted?
    ensures Drops(g, h, id)
  {
    hide Inv, Follows, Init;
    var s := Last(h);
    var t := s.owner[id].emitter;
    var next := s.(emitters := s.emitters[t := s.emitters[t].(pc := Decided(id, true))]);
    var h1 := OneMore(h, DoDecide(t, s.requests[id].state), next);
    hide Step;
    g := DropDecided(h1, id);
    DropsLater(h, h1, g, id);
  }

  lemma {:induction false} DropReturned(h: seq<State>, id: u64) returns (g: seq<State>)
    requires Stored(h, id) && Last(h).requests[id].state != 2 && Held(Last(h), id)
    requires Last(h).emitters[Last(h).owner[id].emitter].pc.Returned?
    ensures Drops(g, h, id)
  {
    hide Inv, Follows, Init;
    var s := Last(h);
    var t := s.owner[id].emitter;
    HeldFacts(h, id);
    NotSubmitted(h, id);
    var next := s.(emitters := s.emitters[t := s.emitters[t].(pc := Counted(id, true))]);
    var h1 := OneMore(h, DoCount(t, s.requests[id].state), next);
    hide Step;
    g := DropCounted(h1, id);
    DropsLater(h, h1, g, id);
  }

  lemma {:induction false} NotSubmitted(h: seq<State>, id: u64)
    requires Stored(h, id) && Last(h).requests[id].state != 2
    ensures Last(h).requests[id].state < 2
  {
    Reachable(h, |h| - 1);
    assert IdOk(Last(h), id);
  }

  lemma {:induction false} DropInClone(h: seq<State>, id: u64) returns (g: seq<State>)
    requires Stored(h, id) && Last(h).requests[id].state != 2 && Held(Last(h), id)
    requires Last(h).emitters[Last(h).owner[id].emitter].pc.InClone?
    requires id in Last(h).clones ==> !AtWork(Last(h).clones[id].phase)
    ensures Drops(g, h, id)
  {
    hide Inv, Follows, Init;
    var s := Last(h);
    var t := s.owner[id].emitter;
    var e := s.emitters[t];
    var next := s.(emitters := s.emitters[t := e.(cb := e.original, pc := Returned(id, false, true))]);
    var h1 := OneMore(h, DoReturn(t, false), next);
    hide Step;
    g := DropReturned(h1, id);
    DropsLater(h, h1, g, id);
  }

  lemma {:induction false} DropAtWork(h: seq<State>, id: u64) returns (g: seq<State>)
    requires Stored(h, id) && Last(h).requests[id].state != 2 && Held(Last(h), id)
    requires Last(h).emitters[Last(h).owner[id].emitter].pc.InClone?
    requires id in Last(h).clones && AtWork(Last(h).clones[id].phase)
    ensures Drops(g, h, id)
  {
    HeldFacts(h, id);
    hide Inv, Follows, Init;
    var s := Last(h);
    if s.clones[id].phase == Finished {
      var r := s.requests[id];
      var next := s.(requests := s.requests[id := r.(state := 2)],
                     clones := s.clones[id := s.clones[id].(phase := Redirected(r.ifindex))]);
      var h1 := OneMore(h, DoSubmit(id), next);
      hide Step;
      g := DropAtHook(h1, id);
      DropsLater(h, h1, g, id);
    } else {
      var next := s.(clones := s.clones[id := s.clones[id].(phase := Refused)]);
      var h1 := OneMore(h, DoDrop(id), next);
      hide Step;
      g := DropInClone(h1, id);
      DropsLater(h, h1, g, id);
    }
  }

  /** A submitted request without a loss on the way has its clone at the hook. */
  lemma {:induction false} SubmittedFacts(h: seq<State>, id: u64)
    requires Stored(h, id)
    ensures Last(h).requests[id].state == 2 ==>
              id in Last(h).clones && (Stuck(Last(h), id) <==> !Last(h).clones[id].phase.Redirected?)
    ensures Last(h).requests[id].state != 2 ==> !Stuck(Last(h), id)
  {
    Reachable(h, |h| - 1);
    assert IdOk(Last(h), id);
  }

  lemma {:induction false} Droppable(h: seq<State>, id: u64) returns (g: seq<State>)
    requires Stored(h, id) && !Stuck(Last(h), id)
    ensures Drops(g, h, id)
  {
    SubmittedFacts(h, id);
    hide Run, Stuck, AtWork;
    var s := Last(h);
    if s.requests[id].state == 2 {
      g := DropAtHook(h, id);
    } else {
      HeldFacts(h, id);
      var pc := s.emitters[s.owner[id].emitter].pc;
      if pc.Decided? {
        g := DropDecided(h, id);
      } else if pc.Counted? {
        g := DropCounted(h, id);
      } else if pc.Returned? {
        g := DropReturned(h, id);
      } else if id in s.clones && AtWork(s.clones[id].phase) {
        g := DropAtWork(h, id);
      } else {
        g := DropInClone(h, id);
      }
    }
  }

  /** Exactly the stuck entries stay: an entry is in the map however the run goes on if and only if it is stuck. */
  lemma {:induction false} StaysExactly(h: seq<State>, id: u64)
    requires Run(h) && id in Last(h).requests
    ensures Stuck(Last(h), id) <==> forall g :: Extends(g, h) ==> id in Last(g).requests
  {
    hide Follows, Init, Inv;
    if Stuck(Last(h), id) {
      forall g | Extends(g, h) ensures id in Last(g).requests {
        assert Last(h) == g[|h| - 1];
        StuckForGood(g, |h| - 1, |g| - 1, id);
      }
    } else {
      var g := Droppable(h, id);
      assert id !in Last(g).requests.Keys;
    }
  }

  /** For an entry no producer holds any more, being stuck is a matter of its clone alone. */
  lemma {:induction false} LeftoverStuckExactly(h: seq<State>, id: u64)
    requires Run(h) && id in Last(h).requests && !Held(Last(h), id)
    ensures id in Last(h).clones && (Stuck(Last(h), id) <==> !Last(h).clones[id].phase.Redirected?)
  {
    LeftoversAreBuilt(h, |h| - 1, id);
  }

  // ---------- runs that fill the map ----------

  const PLAIN := Cb(0, 0)

  /** One producer on interface 1. */
  function Sender(generation: u32, left: nat, cb: Cb, pc: Pc): Emitter {
    Emitter(PLAIN, cb, 1, generation, left, pc)
  }

  /** There are `n` entries, all stuck, and the producer is done. */
  ghost predicate AllLost(s: State, n: nat) {
    && s.sequence == n && |s.requests| == n && 1 in s.interfaces
    && (0 in s.emitters ==> s.emitters[0].pc == Done)
    && forall id :: id in s.requests ==> Stuck(s, id)
  }

  /** The producer has posted its one request. */
  ghost function Posted(s: State): State
    requires 1 in s.interfaces && s.sequence + 1 < U64
  {
    var (id, generation) := (NextId(s), s.interfaces[1]);
    s.(sequence := id, owner := s.owner[id := Origin(0, PLAIN)],
       requests := s.requests[id := Entry(0, 1, generation, PLAIN)],
       emitters := s.emitters[0 := Sender(generation, 0, Pack(id), InClone(id))])
  }

  /** Its fake was built and redirected, and is lost before it reaches the hook. */
  ghost function Carried(s: State): State
    requires s.sequence in s.requests
  {
    var id := s.sequence;
    s.(requests := s.requests[id := s.requests[id].(state := 2)], clones := s.clones[id := Clone(Pack(id), Lost)],
       taken := s.taken + multiset{id}, buildOk := s.buildOk + 1, built := s.built + {id})
  }

  /** The producer counts a submission, keeps the entry and is done. */
  ghost function Settled(s: State): State
    requires 0 in s.emitters
  {
    s.(emitters := s.emitters[0 := s.emitters[0].(cb := PLAIN, pc := Done)],
       submitOk := s.submitOk + 1, submitted := s.submitted + {s.sequence})
  }

  lemma {:induction false} Begun(h: seq<State>, t: nat) returns (g: seq<State>)
    requires Run(h) && 1 in Last(h).interfaces && (t in Last(h).emitters ==> Last(h).emitters[t].pc == Done)
    ensures Extends(g, h)
    ensures var s := Last(h);
            Last(g) == s.(emitters := s.emitters[t := Sender(s.interfaces[1], 1, PLAIN, Ready)])
  {
    hide Follows, Init;
    var s := Last(h);
    var e := Sender(s.interfaces[1], 1, PLAIN, Ready);
    g := OneMore(h, DoBegin(t, PLAIN, 1, 1), s.(emitters := s.emitters[t := e]));
  }

  lemma {:induction false} Post(h: seq<State>) returns (g: seq<State>)
    requires Run(h) && 1 in Last(h).interfaces && |Last(h).requests| < CAPACITY && Last(h).sequence + 1 < U64
    requires 0 in Last(h).emitters ==> Last(h).emitters[0].pc == Done
    ensures Extends(g, h) && Last(g) == Posted(Last(h))
  {
    hide Follows, Init, Pack, Run;
    var h1 := Begun(h, 0);
    var s := Last(h);
    assert Posted(s).emitters == Last(h1).emitters[0 := Posted(s).emitters[0]];
    g := OneMore(h1, DoAttempt(0, true), Posted(s));
    StillExtends(h, h1, g);
  }

  /** What the builder needs of the request just posted. */
  ghost predicate Waiting(s: State) {
    && s.sequence in s.requests && s.sequence !in s.clones && 1 in s.interfaces && 0 in s.emitters
    && s.requests[s.sequence] == Entry(0, 1, s.interfaces[1], PLAIN)
    && s.emitters[0] == Sender(s.interfaces[1], 0, Pack(s.sequence), InClone(s.sequence))
  }

  ghost function WithClone(s: State, state: nat, phase: Phase): State
    requires s.sequence in s.requests
  {
    var id := s.sequence;
    s.(requests := s.requests[id := s.requests[id].(state := state)], clones := s.clones[id := Clone(Pack(id), phase)])
  }

  lemma {:induction false} Build(h: seq<State>) returns (g: seq<State>)
    requires Run(h) && Waiting(Last(h))
    ensures Extends(g, h)
    ensures var s := Last(h);
            Last(g) == WithClone(s, 1, Finished)
              .(taken := s.taken + multiset{s.sequence}, buildOk := s.buildOk + 1, built := s.built + {s.sequence})
  {
    hide Follows, Init, Pack;
    var s := Last(h);
    var id := s.sequence;
    Unpacked(id);
    var s1 := s.(clones := s.clones[id := Clone(Pack(id), AtBuilder)]);
    var h1 := OneMore(h, DoMakeClone(0), s1);
    var s2 := WithClone(s, 1, Building).(taken := s.taken + multiset{id});
    assert s2.clones == s1.clones[id := Clone(Pack(id), Building)];
    var h2 := OneMore(h1, DoTake(id), s2);
    var s3 := WithClone(s, 1, Finished)
              .(taken := s.taken + multiset{id}, buildOk := s.buildOk + 1, built := s.built + {id});
    assert s3.clones == s2.clones[id := Clone(Pack(id), Finished)];
    g := OneMore(h2, DoSucceed(id), s3);
    StillExtends(h, h1, h2);
    StillExtends(h, h2, g);
  }

  lemma {:induction false} Lose(h: seq<State>) returns (g: seq<State>)
    requires Run(h) && Last(h).sequence in Last(h).requests && Last(h).sequence in Last(h).clones
    requires Last(h).clones[Last(h).sequence] == Clone(Pack(Last(h).sequence), Finished)
    ensures Extends(g, h) && Last(g) == WithClone(Last(h), 2, Lost)
  {
    hide Follows, Init, Pack;
    var s := Last(h);
    var id := s.sequence;
    Unpacked(id);
    var s1 := WithClone(s, 2, Redirected(s.requests[id].ifindex));
    var h1 := OneMore(h, DoSubmit(id), s1);
    assert WithClone(s, 2, Lost).clones == s1.clones[id := Clone(Pack(id), Lost)];
    g := OneMore(h1, DoLose(id), WithClone(s, 2, Lost));
    StillExtends(h, h1, g);
  }

  lemma {:induction false} Carry(h: seq<State>) returns (g: seq<State>)
    requires Run(h) && Waiting(Last(h))
    ensures Extends(g, h) && Last(g) == Carried(Last(h))
  {
    hide Run, Step, Pack;
    var h1 := Build(h);
    g := Lose(h1);
    StillExtends(h, h1, g);
    var (s, s1) := (Last(h), Last(h1));
    var id := s.sequence;
    assert s1.clones[id := Clone(Pack(id), Lost)] == s.clones[id := Clone(Pack(id), Lost)];
    assert s1.requests[id := s1.requests[id].(state := 2)] == s.requests[id := s.requests[id].(state := 2)];
  }

  lemma {:induction false} Settle(h: seq<State>) returns (g: seq<State>)
    requires Run(h) && 0 in Last(h).emitters && Stuck(Last(h), Last(h).sequence)
    requires Last(h).emitters[0].original == PLAIN && Last(h).emitters[0].pc == InClone(Last(h).sequence)
    ensures Extends(g, h) && Last(g) == Settled(Last(h))
  {
    hide Follows, Init;
    var s := Last(h);
    var (id, e) := (s.sequence, s.emitters[0].(cb := PLAIN));
    var s1 := s.(emitters := s.emitters[0 := e.(pc := Returned(id, false, true))]);
    var h1 := OneMore(h, DoReturn(0, false), s1);
    var s2 := Settled(s).(emitters := s.emitters[0 := e.(pc := Counted(id, true))]);
    assert s2.emitters == s1.emitters[0 := e.(pc := Counted(id, true))];
    var h2 := OneMore(h1, DoCount(0, 2), s2);
    StillExtends(h, h1, h2);
    g := Leave(h2);
    StillExtends(h, h2, g);
    assert s2.emitters[0 := e.(pc := Done)] == s.emitters[0 := e.(pc := Done)];
  }

  lemma {:induction false} Leave(h: seq<State>) returns (g: seq<State>)
    requires Run(h) && 0 in Last(h).emitters && Stuck(Last(h), Last(h).sequence)
    requires Last(h).emitters[0].pc == Counted(Last(h).sequence, true)
    ensures Extends(g, h)
    ensures Last(g) == Last(h).(emitters := Last(h).emitters[0 := Last(h).emitters[0].(pc := Done)])
  {
    hide Follows, Init;
    var s := Last(h);
    var (id, e) := (s.sequence, s.emitters[0]);
    var s1 := s.(emitters := s.emitters[0 := e.(pc := Decided(id, false))]);
    var h1 := OneMore(h, DoDecide(0, 2), s1);
    var s2 := s.(emitters := s.emitters[0 := e.(pc := Ready)]);
    assert s2.emitters == s1.emitters[0 := e.(pc := Ready)];
    var h2 := OneMore(h1, DoFinish(0), s2);
    StillExtends(h, h1, h2);
    var s3 := s.(emitters := s.emitters[0 := e.(pc := Done)]);
    assert s3.emitters == s2.emitters[0 := e.(pc := Done)];
    g := OneMore(h2, DoStop(0), s3);
    StillExtends(h, h2, g);
  }

  lemma {:induction false} NewId(h: seq<State>)
    requires Run(h) && Last(h).sequence + 1 < U64
    ensures NextId(Last(h)) !in Last(h).requests && NextId(Last(h)) !in Last(h).clones
  {
    Reachable(h, |h| - 1);
    assert IdOk(Last(h), NextId(Last(h)));
  }

  lemma {:induction false} RoundLost(s: State, n: nat)
    requires AllLost(s, n) && n < CAPACITY && n + 1 !in s.requests && n + 1 !in s.clones
    ensures Waiting(Posted(s)) && AllLost(Settled(Carried(Posted(s))), n + 1)
  {
    hide Pack, Stuck;
    var last := Settled(Carried(Posted(s)));
    RoundFields(s, n);
    assert |last.requests.Keys| == |s.requests.Keys + {n + 1}| == n + 1;
    forall id | id in last.requests ensures Stuck(last, id) {
      RoundStuck(s, n, id);
    }
  }

  lemma {:induction false} CarriedStuck(s: State)
    requires Waiting(s)
    ensures var c := Carried(s);
            && 0 in c.emitters && Stuck(c, c.sequence)
            && c.emitters[0].original == PLAIN && c.emitters[0].pc == InClone(c.sequence)
  {
    hide Pack;
  }

  lemma {:induction false} RoundFields(s: State, n: nat)
    requires 1 in s.interfaces && s.sequence == n < CAPACITY && n + 1 !in s.requests && n + 1 !in s.clones
    ensures Waiting(Posted(s))
    ensures var last := Settled(Carried(Posted(s)));
            && last.sequence == n + 1 && last.interfaces == s.interfaces
            && last.requests.Keys == s.requests.Keys + {n + 1} && 0 in last.emitters && last.emitters[0].pc == Done
  {
    hide Posted, Carried, Settled, Waiting;
    PostedFields(s);
    CarriedFields(Posted(s));
    SettledFields(Carried(Posted(s)));
  }

  lemma {:induction false} PostedFields(s: State)
    requires 1 in s.interfaces && s.sequence < CAPACITY
    requires s.sequence + 1 !in s.clones
    ensures var p := Posted(s);
            && Waiting(p) && p.sequence == s.sequence + 1 && p.interfaces == s.interfaces
            && p.requests.Keys == s.requests.Keys + {s.sequence + 1} && 0 in p.emitters && p.sequence in p.requests
  {
    hide Pack;
  }

  lemma {:induction false} CarriedFields(s: State)
    requires s.sequence in s.requests
    ensures var c := Carried(s);
            && c.sequence == s.sequence && c.interfaces == s.interfaces && c.emitters == s.emitters
            && c.requests.Keys == s.requests.Keys
  {
    hide Pack;
  }

  lemma {:induction false} SettledFields(s: State)
    requires 0 in s.emitters
    ensures var l := Settled(s);
            && l.sequence == s.sequence && l.interfaces == s.interfaces && l.requests == s.requests
            && 0 in l.emitters && l.emitters[0].pc == Done
  {
  }

  lemma {:induction false} RoundStuck(s: State, n: nat, id: u64)
    requires 1 in s.interfaces && s.sequence == n < CAPACITY && (id == n + 1 || Stuck(s, id))
    ensures Stuck(Settled(Carried(Posted(s))), id)
  {
    hide Pack;
  }

  lemma {:induction false} Round(h: seq<State>, n: nat) returns (g: seq<State>)
    requires Run(h) && AllLost(Last(h), n) && n < CAPACITY
    ensures Extends(g, h) && AllLost(Last(g), n + 1)
  {
    NewId(h);
    var h1 := Post(h);
    RoundLost(Last(h), n);
    CarriedStuck(Last(h1));
    hide Step, Run, Pack, AllLost, Posted, Carried, Settled, Waiting, Stuck;
    var h2 := Carry(h1);
    StillExtends(h, h1, h2);
    g := Settle(h2);
    StillExtends(h, h2, g);
  }

  lemma {:induction false} Opened(s0: State) returns (h: seq<State>)
    requires Init(s0)
    ensures Run(h) && h[0] == s0 && AllLost(Last(h), 0)
  {
    hide Follows;
    h := OneMore([s0], DoInterfaces, s0.(interfaces := s0.interfaces[1 := 1]));
  }

  lemma {:induction false} Rounds(s0: State, n: nat) returns (h: seq<State>)
    requires Init(s0) && n <= CAPACITY
    ensures Run(h) && h[0] == s0 && AllLost(Last(h), n)
  {
    hide Step, Follows, AllLost;
    if n == 0 {
      h := Opened(s0);
    } else {
      var g := Rounds(s0, n - 1);
      h := Round(g, n - 1);
      assert h[..|g|][0] == s0;
    }
  }

  /** Such states are reached, for any number of entries up to the whole map. */
  lemma {:induction false} StuckReachable(s0: State, n: nat)
    requires Init(s0) && n <= CAPACITY
    ensures exists h :: Run(h) && h[0] == s0 && |Last(h).requests| == n
              && forall id :: id in Last(h).requests ==> Stuck(Last(h), id)
  {
    hide Run, Stuck;
    var h := Rounds(s0, n);
  }

  // ---------- when there is no room for good ----------

  /** However the run goes on, no attempt inserts a request. */
  ghost predicate NoRoom(h: seq<State>) {
    forall g, t, next :: Extends(g, h) ==> !Step(Last(g), DoAttempt(t, true), next)
  }

  lemma {:induction false} Bound(m: set<nat>) returns (n: nat)
    ensures forall t :: t in m ==> t < n
  {
    if m == {} {
      n := 0;
    } else {
      var t :| t in m;
      var k := Bound(m - {t});
      n := if t < k then k else t + 1;
      forall x | x in m ensures x < n {
        assert x == t || x in m - {t};
      }
    }
  }

  /** With a free entry a new producer gets its request in. */
  lemma {:induction false} RoomUsed(h: seq<State>)
    requires Run(h) && |Last(h).requests| < CAPACITY && Last(h).sequence + 1 < U64
    ensures !NoRoom(h)
  {
    hide Init, Follows;
    var s := Last(h);
    var t := Bound(s.emitters.Keys);
    assert t !in s.emitters.Keys;
    var h1 := OneMore(h, DoInterfaces, s.(interfaces := s.interfaces[1 := 1]));
    hide Step, Run;
    var h2 := Begun(h1, t);
    StillExtends(h, h1, h2);
    var next := CanInsert(Last(h2), t);
  }

  lemma {:induction false} CanInsert(s: State, t: nat) returns (next: State)
    requires t in s.emitters && s.emitters[t].pc == Ready && s.emitters[t].left > 0
    requires |s.requests| < CAPACITY && s.sequence + 1 < U64
    ensures Step(s, DoAttempt(t, true), next)
  {
    hide Pack;
    var (id, e) := (NextId(s), s.emitters[t]);
    next := s.(sequence := id, owner := s.owner[id := Origin(t, e.cb)],
               requests := s.requests[id := Entry(0, e.ifindex, e.ifgen, e.cb)],
               emitters := s.emitters[t := e.(cb := Pack(id), left := e.left - 1, pc := InClone(id))]);
  }

  lemma {:induction false} NoRoomLater(h: seq<State>, g: seq<State>)
    requires NoRoom(h) && Extends(g, h)
    ensures NoRoom(g)
  {
    forall f, t, next | Extends(f, g) ensures !Step(Last(f), DoAttempt(t, true), next) {
      StillExtends(h, g, f);
    }
  }

  /** The map takes no request any more exactly when all its 256 entries are stuck. */
  lemma {:induction false} NoRoomExactly(h: seq<State>)
    requires Run(h) && Last(h).sequence + 1 < U64
    ensures NoRoom(h) <==> |Last(h).requests| == CAPACITY && forall id :: id in Last(h).requests ==> Stuck(Last(h), id)
  {
    hide Inv, Init, Follows, Stuck, Step;
    var s := Last(h);
    Totals(h, |h| - 1);
    if |s.requests| < CAPACITY {
      RoomUsed(h);
    } else if id :| id in s.requests && !Stuck(s, id) {
      var g := Droppable(h, id);
      assert |Last(g).requests.Keys| < |s.requests.Keys|;
      RoomUsed(g);
      if NoRoom(h) { NoRoomLater(h, g); }
    } else {
      forall g, t, next | Extends(g, h) ensures !Step(Last(g), DoAttempt(t, true), next) {
        AttemptFails(h, g, t, next);
      }
    }
  }

  lemma {:induction false} AttemptFails(h: seq<State>, g: seq<State>, t: nat, next: State)
    requires Run(h) && Extends(g, h) && |Last(h).requests| == CAPACITY
    requires forall id :: id in Last(h).requests ==> Stuck(Last(h), id)
    ensures !Step(Last(g), DoAttempt(t, true), next)
  {
    hide Step, Init, Follows, Stuck;
    if Step(Last(g), DoAttempt(t, true), next) {
      var f := OneMore(g, DoAttempt(t, true), next);
      hide Run;
      assert f[|h| - 1] == g[..|h|][|h| - 1] == Last(h) && f[|g| - 1] == Last(g) && f[|g|] == next;
      StuckEntriesExhaust(f, |h| - 1, |g| - 1, Last(h).requests.Keys, t, true);
    }
  }

  /** And that state is reached. */
  lemma {:induction false} NoRoomReachable(s0: State)
    requires Init(s0)
    ensures exists h :: Run(h) && h[0] == s0 && NoRoom(h)
  {
    hide Run, Stuck, NoRoom;
    var h := Rounds(s0, CAPACITY);
    NoRoomExactly(h);
  }
}
