/**
 The way of a template pick from the observer to the builder: packed into the emit word, drawn
 into a variant, packed into the request, and looked up among what the daemon published
 (ebpf/bpf/observer.bpf.c:22-27, 45-62, ebpf/bpf/builder.bpf.c:53-55).
 */
module TemplateLookup {
  import opened Bytes
  import opened Common
  import opened Abi
  import opened Generations

  /** Hop count in bits 0 to 7, plan in bits 8 and 9. */
  function EmitWord(ttl: u32, plan: u32): u32 { ttl % 256 + plan % PLANS * 256 }

  function WordTtl(word: u32): nat { word % 256 }

  function WordPlan(word: u32): nat { word / 256 % PLANS }

  /** The pick among `count` variants; the counts are powers of two, so the mask is a remainder. */
  function Variant(random: u32, count: nat): nat {
    random * 2654435761 % U32 / 0x400_0000 % (if count == 0 then 1 else count)
  }

  /** The `variant` field of the request. */
  function Request(c: Config, word: u32, random: u32): u32
    requires Sound(c)
  {
    Pick(WordPlan(word), Variant(random, c.variants[WordPlan(word)]))
  }

  /** The key the builder looks up. */
  function BuilderKey(configGen: u32, pick: u32): u32 {
    TemplateKey(configGen, PickedPlan(pick), PickedVariant(pick))
  }

  lemma WordRoundTrip(ttl: u32, plan: u32)
    requires ttl < 256 && plan < PLANS
    ensures WordTtl(EmitWord(ttl, plan)) == ttl && WordPlan(EmitWord(ttl, plan)) == plan
  {
    assert (ttl + plan * 256) / 256 == plan;
  }

  lemma PickRoundTrip(plan: u32, variant: u32)
    requires plan < PLANS && variant < VARIANTS
    ensures PickedPlan(Pick(plan, variant)) == plan && PickedVariant(Pick(plan, variant)) == variant
  {
    assert (plan * VARIANTS + variant) / VARIANTS == plan;
  }

  /** The 32-bit keys of all generations that pass the guard are distinct. */
  lemma KeysDistinct(g: u32, plan: nat, variant: nat, g': u32, plan': nat, variant': nat)
    requires g <= LAST_GENERATION && plan < PLANS && variant < VARIANTS
    requires g' <= LAST_GENERATION && plan' < PLANS && variant' < VARIANTS
    requires TemplateKey(g, plan, variant) == TemplateKey(g', plan', variant')
    ensures g == g' && plan == plan' && variant == variant'
  {
    KeyAt(g, plan, variant);
    KeyAt(g', plan', variant');
  }

  /** The key wraps with the generation: only its low 25 bits matter. */
  lemma KeyWraps(g: u32, plan: nat, variant: nat)
    requires plan < PLANS && variant < VARIANTS
    ensures TemplateKey(g, plan, variant) == TemplateKey(g % (LAST_GENERATION + 1), plan, variant)
  {
    var (q, r) := (g / (LAST_GENERATION + 1), g % (LAST_GENERATION + 1));
    KeyAt(r, plan, variant);
    var k := (r * PLANS + plan) * VARIANTS + variant;
    assert (g * PLANS + plan) * VARIANTS + variant == q * U32 + k;
    assert 0 <= k < U32;
    assert (q * U32 + k) % U32 == k;
  }

  /** Over all 32-bit generations, keys collide exactly if the generations agree modulo 2^25: the guard is needed. */
  lemma KeysCollideExactly(g: u32, plan: nat, variant: nat, g': u32, plan': nat, variant': nat)
    requires plan < PLANS && variant < VARIANTS && plan' < PLANS && variant' < VARIANTS
    ensures TemplateKey(g, plan, variant) == TemplateKey(g', plan', variant')
       <==> g % (LAST_GENERATION + 1) == g' % (LAST_GENERATION + 1) && plan == plan' && variant == variant'
  {
    hide TemplateKey;
    KeyWraps(g, plan, variant);
    KeyWraps(g', plan', variant');
    var (r, r') := (g % (LAST_GENERATION + 1), g' % (LAST_GENERATION + 1));
    if TemplateKey(g, plan, variant) == TemplateKey(g', plan', variant') {
      KeysDistinct(r, plan, variant, r', plan', variant');
    }
  }

  /** One generation past the guard and the keys collide with the first. */
  lemma GuardNeeded()
    ensures TemplateKey(LAST_GENERATION + 1, 0, 0) == TemplateKey(0, 0, 0)
  {
    KeysCollideExactly(LAST_GENERATION + 1, 0, 0, 0, 0, 0);
  }

  /** The key asked for lies in the generation and plan meant, and is announced exactly if the plan has variants. */
  lemma KeyAsked(c: Config, ttl: u32, plan: u32, random: u32)
    requires Sound(c) && c.generation <= LAST_GENERATION && ttl < 256 && plan < PLANS
    ensures var k := BuilderKey(c.generation, Request(c, EmitWord(ttl, plan), random));
            && GenerationOf(k) == c.generation && PlanAt(k) == plan
            && (Announced(c.variants, c.generation, k) <==> c.variants[plan] > 0)
  {
    var variant := Variant(random, c.variants[plan]);
    VariantBound(random, c.variants[plan]);
    WordRoundTrip(ttl, plan);
    PickRoundTrip(plan, variant);
    KeyAt(c.generation, plan, variant);
  }

  lemma VariantBound(random: u32, count: nat)
    requires count <= VARIANTS
    ensures 0 <= Variant(random, count) < VARIANTS && (count > 0 ==> Variant(random, count) < count)
  {
  }

  /** Until the write after the switch two generations ahead, nothing of a generation once active changes. */
  lemma {:induction false} StaysAsItWas(h: seq<View>, i: nat, j: nat)
    requires HistoryOk(h) && i <= j < |h| && (i < j ==> h[j - 1].active <= h[i].active + 1)
    requires h[i].active in h[i].configs
    ensures h[i].active <= h[j].active && SameAt(h[i], h[j], h[i].active)
    decreases j
  {
    hide *;
    if i == j {
      SameSelf(h[i], h[i].active);
    } else {
      Growing(h, i, j - 1);
      if i < j - 1 { Growing(h, j - 2, j - 1); }
      StaysAsItWas(h, i, j - 1);
      KeepsAt(h, j);
      StillThere(h[i], h[j - 1], h[i].active);
      KeptSame(h[j - 1], h[j], h[i].active);
      SameTwice(h[i], h[j - 1], h[j], h[i].active);
    }
  }

  lemma {:induction false} KeepsAt(h: seq<View>, j: nat)
    requires HistoryOk(h) && 0 < j < |h|
    ensures Keeps(h[j - 1], h[j])
  {
  }

  lemma {:induction false} StillThere(v: View, w: View, g: u32)
    requires SameAt(v, w, g) && g in v.configs
    ensures g in w.configs
  {
  }

  lemma {:induction false} KeptSame(v: View, w: View, g: u32)
    requires Keeps(v, w) && g in v.configs && g <= v.active <= g + 1
    ensures v.active <= w.active && SameAt(v, w, g)
  {
    hide SameAt;
  }

  lemma {:induction false} Growing(h: seq<View>, i: nat, j: nat)
    requires HistoryOk(h) && i <= j < |h|
    ensures h[i].active <= h[j].active
    decreases j
  {
    if i < j {
      Growing(h, i, j - 1);
      assert Keeps(h[j - 1], h[j]);
    }
  }

  lemma {:induction false} SameSelf(v: View, g: u32)
    ensures SameAt(v, v, g)
  {
  }

  lemma {:induction false} SameTwice(u: View, v: View, w: View, g: u32)
    requires SameAt(u, v, g) && SameAt(v, w, g)
    ensures SameAt(u, w, g)
  {
  }

  /**
   The active number is read at one write and its configuration at a later one, and the builder looks the
   request up at a later one still: the configuration read is the one published under that number, and the
   published template is found exactly if that configuration has variants for the plan.
   */
  lemma {:induction false} FoundExactly(h: seq<View>, i: nat, m: nat, j: nat, ttl: u32, plan: u32, random: u32)
    requires HistoryOk(h) && i <= m <= j < |h| && (i < j ==> h[j - 1].active <= h[i].active + 1)
    requires 0 < h[i].active <= LAST_GENERATION && ttl < 256 && plan < PLANS
    ensures h[i].active in h[i].configs && h[i].active in h[m].configs
    ensures h[m].configs[h[i].active] == h[i].configs[h[i].active] && Sound(h[m].configs[h[i].active])
    ensures var c := h[m].configs[h[i].active];
            var k := BuilderKey(c.generation, Request(c, EmitWord(ttl, plan), random));
            && c.generation == h[i].active && PlanAt(k) == plan
            && (k in h[j].templates <==> c.variants[plan] > 0)
            && (k in h[j].templates ==>
                  k in h[i].templates && h[j].templates[k] == h[i].templates[k] && h[j].templates[k].len > 0)
  {
    CompleteAt(h, i);
    var g := h[i].active;
    UpTo(h, i, m, j);
    StaysAsItWas(h, i, m);
    StaysAsItWas(h, i, j);
    hide HistoryOk, Sound, BuilderKey, Request, Announced;
    var c := h[i].configs[g];
    KeyAsked(c, ttl, plan, random);
  }

  /** The bound on the active number holds up to an earlier write too. */
  lemma {:induction false} UpTo(h: seq<View>, i: nat, m: nat, j: nat)
    requires HistoryOk(h) && i <= m <= j < |h| && (i < j ==> h[j - 1].active <= h[i].active + 1)
    ensures i < m ==> h[m - 1].active <= h[i].active + 1
  {
    hide *;
    if i < m { Growing(h, m - 1, j - 1); }
  }

  lemma CompleteAt(h: seq<View>, i: nat)
    requires HistoryOk(h) && i < |h|
    ensures Complete(h[i])
  {
  }

  /** The UDP plan, and every rule the rotation can choose, is always found. */
  lemma {:induction false} RotationFinds(h: seq<View>, i: nat, m: nat, j: nat, ttl: u32, plan: u32, random: u32)
    requires HistoryOk(h) && i <= m <= j < |h| && (i < j ==> h[j - 1].active <= h[i].active + 1)
    requires 0 < h[i].active <= LAST_GENERATION && ttl < 256 && h[i].active in h[m].configs
    requires plan == PLAN_UDP || plan in h[m].configs[h[i].active].ruleMap
    ensures Sound(h[m].configs[h[i].active])
    ensures var c := h[m].configs[h[i].active];
            BuilderKey(c.generation, Request(c, EmitWord(ttl, plan), random)) in h[j].templates
  {
    hide HistoryOk, BuilderKey, Request;
    CompleteAt(h, i);
    UpTo(h, i, m, j);
    StaysAsItWas(h, i, m);
    assert plan < PLANS;
    FoundExactly(h, i, m, j, ttl, plan, random);
  }
}
