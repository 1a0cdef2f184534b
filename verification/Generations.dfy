/**
 The daemon's publication and reaping of configuration generations, with every write to a
 kernel map as a step of its own (ebpf/user/lifecycle.c:153-215).

 `history` lists what the data path could see after each write. Deletions succeed; an
 insertion may fail for its own reasons, or because the key exists or the map is full.
 */
module Generations {
  import opened Bytes
  import opened Common
  import opened Abi

  const TEMPLATES_MAX := 448
  const CONFIGS_MAX := 16
  const LAST_GENERATION := 33554431

  /** What the data path uses of a configuration: `variants` has one count per plan. */
  datatype Config = Config(generation: u32, ruleMap: seq<nat>, variants: seq<nat>)

  /** Options as read and rendered: one template and one variant count per plan, and the enabled rules. */
  datatype Options = Options(templates: seq<Template>, variants: seq<nat>, ruleMap: seq<nat>)

  /** What reading a configuration guarantees (ebpf/user/templates.c:140-206). */
  predicate Accepted(o: Options) {
    && |o.templates| == PLANS && |o.variants| == PLANS
    && (forall p :: 0 <= p < PLANS ==> o.variants[p] == 1 || o.variants[p] == VARIANTS)
    && 0 < |o.ruleMap| <= RULES_MAX
    && (forall i :: 0 <= i < |o.ruleMap| ==> o.ruleMap[i] < RULES_MAX && o.templates[o.ruleMap[i]].len > 0)
    && o.templates[PLAN_UDP].len > 0
  }

  /** What rendering the variants gives: the base first, and nothing empty from a template that is not. */
  predicate Renders(o: Options, out: seq<seq<Template>>) {
    && |o.templates| == PLANS && |out| == PLANS
    && (forall p :: 0 <= p < PLANS ==> |out[p]| == VARIANTS && out[p][0] == o.templates[p])
    && (forall p, v :: 0 <= p < PLANS && 0 <= v < VARIANTS && o.templates[p].len > 0 ==> out[p][v].len > 0)
  }

  function CountOf(o: Options, p: nat): (n: nat)
    requires p < PLANS && |o.templates| == PLANS && |o.variants| == PLANS
    ensures n <= VARIANTS
  {
    if o.templates[p].len == 0 then 0
    else if o.variants[p] == 0 then 1
    else if o.variants[p] > VARIANTS then VARIANTS
    else o.variants[p]
  }

  function Counts(o: Options): (c: seq<nat>)
    requires |o.templates| == PLANS && |o.variants| == PLANS
    ensures |c| == PLANS && forall p :: 0 <= p < PLANS ==> c[p] == CountOf(o, p)
  {
    seq(PLANS, p requires 0 <= p < PLANS => CountOf(o, p))
  }

  /** What the data path sees. */
  datatype View = View(active: u32, configs: map<u32, Config>, templates: map<u32, Template>)

  function GenerationOf(k: u32): nat { k / SPAN }

  function PlanAt(k: u32): (p: nat)
    ensures p < PLANS
  {
    k % SPAN / VARIANTS
  }

  /** A key of generation `g` that counts announce. */
  predicate Announced(variants: seq<nat>, g: nat, k: u32) {
    |variants| == PLANS && GenerationOf(k) == g && k % VARIANTS < variants[PlanAt(k)]
  }

  /** Every count is a power of two or nothing; the UDP plan and every rule of the rotation are announced. */
  predicate Sound(c: Config) {
    && |c.variants| == PLANS
    && (forall p :: 0 <= p < PLANS ==> c.variants[p] == 0 || c.variants[p] == 1 || c.variants[p] == VARIANTS)
    && c.variants[PLAN_UDP] > 0
    && forall i :: 0 <= i < |c.ruleMap| ==> c.ruleMap[i] < RULES_MAX && c.variants[c.ruleMap[i]] > 0
  }

  /** The generation has its configuration and exactly the templates it announces, none of them empty. */
  predicate Whole(v: View, g: u32) {
    && g in v.configs && v.configs[g].generation == g && Sound(v.configs[g])
    && forall k: u32 :: GenerationOf(k) == g ==>
         (k in v.templates <==> Announced(v.configs[g].variants, g, k)) && (k in v.templates ==> v.templates[k].len > 0)
  }

  predicate Complete(v: View) {
    && (v.active != 0 ==> Whole(v, v.active))
    && |v.configs| <= 3 && |v.templates| <= 3 * SPAN
  }

  /** One write later: the active generation and the one before it are as they were. */
  predicate Keeps(v: View, w: View) {
    && v.active <= w.active
    && forall g: u32 :: g in v.configs && g <= v.active <= g + 1 ==> SameAt(v, w, g)
  }

  predicate SameAt(v: View, w: View, g: u32) {
    && (g in v.configs <==> g in w.configs) && (g in v.configs ==> w.configs[g] == v.configs[g])
    && forall k: u32 :: GenerationOf(k) == g ==>
         (k in v.templates <==> k in w.templates) && (k in v.templates ==> w.templates[k] == v.templates[k])
  }

  predicate HistoryOk(h: seq<View>) {
    && |h| > 0
    && (forall i :: 0 <= i < |h| ==> Complete(h[i]))
    && (forall i :: 0 < i < |h| ==> Keeps(h[i - 1], h[i]))
  }

  lemma Extended(h: seq<View>, v: View)
    requires HistoryOk(h) && Complete(v) && Keeps(h[|h| - 1], v)
    ensures HistoryOk(h + [v])
  {
    hide Complete, Keeps;
  }

  function RecentConfigs(m: map<u32, Config>, active: u32): map<u32, Config> {
    map g | g in m && g <= active <= g + 1 :: m[g]
  }

  function RecentTemplates(m: map<u32, Template>, active: u32): map<u32, Template> {
    map k | k in m && GenerationOf(k) <= active <= GenerationOf(k) + 1 :: m[k]
  }

  /** All templates but those with keys from `lo` up to `hi`. */
  function Without(m: map<u32, Template>, lo: nat, hi: nat): map<u32, Template> {
    map k | k in m && !(lo <= k < hi) :: m[k]
  }

  lemma {:induction false} WithoutNext(m: map<u32, Template>, lo: nat, hi: u32)
    requires lo <= hi
    ensures Without(m, lo, hi) - {hi} == Without(m, lo, hi + 1)
  {
  }

  lemma WithoutNone(m: map<u32, Template>, lo: nat)
    ensures Without(m, lo, lo) == m
  {
  }

  lemma SpanKey(g: u32, v: nat)
    requires g <= LAST_GENERATION && v < SPAN
    ensures 0 <= g * SPAN + v < U32 && GenerationOf(g * SPAN + v) == g
  {
  }

  lemma {:induction false} DeleteOther(m: map<u32, Template>, k: u32, active: u32)
    requires !(GenerationOf(k) <= active <= GenerationOf(k) + 1)
    ensures RecentTemplates(m - {k}, active) == RecentTemplates(m, active)
  {
  }

  predicate Shaped(variants: seq<nat>, out: seq<seq<Template>>) {
    && |variants| == PLANS && |out| == PLANS
    && forall p :: 0 <= p < PLANS ==> |out[p]| == VARIANTS && variants[p] <= VARIANTS
  }

  /** The templates of a generation written so far: those at offsets below `limit`. */
  function Written(g: u32, variants: seq<nat>, out: seq<seq<Template>>, limit: nat): map<u32, Template>
    requires g <= LAST_GENERATION && Shaped(variants, out)
  {
    map k: u32 | g * SPAN <= k < g * SPAN + SPAN && k - g * SPAN < limit && Announced(variants, g, k)
      :: out[PlanAt(k)][k % VARIANTS]
  }

  // ---------- sizes ----------

  lemma {:induction false} RangeSize(s: set<u32>, lo: int, n: nat)
    requires forall k :: k in s ==> lo <= k < lo + n
    ensures |s| <= n
  {
    if n > 0 {
      var last := lo + n - 1;
      if 0 <= last < U32 {
        var rest := s - {last};
        RangeSize(rest, lo, n - 1);
        assert s <= rest + {last};
        if last in s { assert s == rest + {last}; } else { assert s == rest; }
      } else {
        RangeSize(s, lo, n - 1);
      }
    } else {
      assert s == {};
    }
  }

  /** Every live key belongs to one of three generations in a row. */
  predicate Windowed(configs: map<u32, Config>, templates: map<u32, Template>, lo: int) {
    && (forall g :: g in configs ==> lo <= g < lo + 3)
    && (forall k :: k in templates ==> lo <= GenerationOf(k) < lo + 3)
  }

  lemma {:induction false} FewerWindowed(configs: map<u32, Config>, templates: map<u32, Template>, k: u32, lo: int)
    requires Windowed(configs, templates, lo)
    ensures Windowed(configs, templates - {k}, lo)
  {
  }

  lemma {:induction false} WindowSize(configs: map<u32, Config>, templates: map<u32, Template>, lo: int)
    requires Windowed(configs, templates, lo)
    ensures |configs| <= 3 && |templates| <= 3 * SPAN
  {
    RangeSize(configs.Keys, lo, 3);
    RangeSize(templates.Keys, lo * SPAN, 3 * SPAN);
  }

  // ---------- what one write keeps ----------

  /** Nothing of the two newest generations changed. */
  lemma {:induction false} KeepsByAge(v: View, w: View)
    requires w.active == v.active
    requires RecentConfigs(w.configs, v.active) == RecentConfigs(v.configs, v.active)
    requires RecentTemplates(w.templates, v.active) == RecentTemplates(v.templates, v.active)
    ensures Keeps(v, w)
  {
    var (vc, wc) := (RecentConfigs(v.configs, v.active), RecentConfigs(w.configs, v.active));
    var (vt, wt) := (RecentTemplates(v.templates, v.active), RecentTemplates(w.templates, v.active));
    forall g: u32 | g in v.configs && g <= v.active <= g + 1 ensures SameAt(v, w, g) {
      assert g in vc && g in wc;
      forall k: u32 | GenerationOf(k) == g
        ensures (k in v.templates <==> k in w.templates) && (k in v.templates ==> w.templates[k] == v.templates[k])
      {
        assert k in v.templates <==> k in vt;
        assert k in w.templates <==> k in wt;
      }
    }
  }

  lemma WholeByAge(v: View, w: View)
    requires v.active != 0 ==> Whole(v, v.active)
    requires w.active == v.active && Keeps(v, w)
    ensures v.active != 0 ==> Whole(w, v.active)
  {
    if v.active != 0 { assert SameAt(v, w, v.active); }
  }

  /** A write that leaves the two newest generations alone extends a good history. */
  lemma {:induction false} OldWrite(h: seq<View>, w: View, lo: int)
    requires HistoryOk(h) && w.active == h[|h| - 1].active
    requires RecentConfigs(w.configs, w.active) == RecentConfigs(h[|h| - 1].configs, w.active)
    requires RecentTemplates(w.templates, w.active) == RecentTemplates(h[|h| - 1].templates, w.active)
    requires Windowed(w.configs, w.templates, lo)
    ensures HistoryOk(h + [w])
  {
    hide Windowed, Whole, Keeps, RecentConfigs, RecentTemplates;
    var v := h[|h| - 1];
    KeepsByAge(v, w);
    WholeByAge(v, w);
    WindowSize(w.configs, w.templates, lo);
    Extended(h, w);
  }

  /** The kernel's traversal order lists the keys of the configuration map once each. */
  ghost predicate Listing(order: seq<u32>, configs: map<u32, Config>) {
    && (forall g :: g in configs <==> g in order)
    && (forall i, j :: 0 <= i < j < |order| ==> order[i] != order[j])
  }

  lemma {:induction false} Unlisted(order: seq<u32>, configs: map<u32, Config>, i: nat)
    requires Listing(order, configs) && i < |order|
    ensures Listing(order[..i] + order[i + 1..], configs - {order[i]})
  {
    var rest := order[..i] + order[i + 1..];
    forall g ensures g in configs - {order[i]} <==> g in rest {
      if g in order && g != order[i] {
        var j :| 0 <= j < |order| && order[j] == g;
        assert g == if j < i then rest[j] else rest[j - 1];
      }
      if g in rest {
        var j :| 0 <= j < |rest| && rest[j] == g;
        assert g == if j < i then order[j] else order[j + 1];
      }
    }
  }

  lemma {:induction false} Relisted(order: seq<u32>, configs: map<u32, Config>, i: nat, g: u32, c: Config)
    requires Listing(order, configs) && i <= |order| && g !in configs
    ensures Listing(order[..i] + [g] + order[i..], configs[g := c])
  {
    var more := order[..i] + [g] + order[i..];
    forall x ensures x in configs[g := c] <==> x in more {
      if x in order {
        var j :| 0 <= j < |order| && order[j] == x;
        assert x == if j < i then more[j] else more[j + 1];
      }
      if x in more {
        var j :| 0 <= j < |more| && more[j] == x;
        if j != i { assert x == if j < i then order[j] else order[j - 1]; }
      }
    }
    assert more[i] == g;
  }

  // ---------- writing the templates of a new generation ----------

  lemma KeyAt(g: u32, p: nat, v: nat)
    requires g <= LAST_GENERATION && p < PLANS && v < VARIANTS
    ensures var k := g * SPAN + p * VARIANTS + v;
            0 <= k < U32 && GenerationOf(k) == g && PlanAt(k) == p && k % VARIANTS == v && k == TemplateKey(g, p, v)
  {
    assert (g * SPAN + p * VARIANTS + v) / VARIANTS == g * PLANS + p;
    SpanKey(g, p * VARIANTS + v);
    assert (g * SPAN + p * VARIANTS + v) % SPAN == p * VARIANTS + v;
  }

  lemma {:induction false} KeyParts(g: u32, k: u32)
    requires g <= LAST_GENERATION && g * SPAN <= k < g * SPAN + SPAN
    ensures GenerationOf(k) == g && k == g * SPAN + PlanAt(k) * VARIANTS + k % VARIANTS
  {
    SpanParts(g, k - g * SPAN);
  }

  lemma SpanParts(g: nat, r: nat)
    requires r < SPAN
    ensures (g * SPAN + r) / SPAN == g && (g * SPAN + r) % SPAN == r && (g * SPAN + r) % VARIANTS == r % VARIANTS
  {
    assert g * SPAN + r == (g * PLANS + r / VARIANTS) * VARIANTS + r % VARIANTS;
  }

  lemma {:induction false} WrittenNext(g: u32, variants: seq<nat>, out: seq<seq<Template>>, p: nat, v: nat)
    requires g <= LAST_GENERATION && Shaped(variants, out) && p < PLANS && v < variants[p]
    ensures var (k, at) := (g * SPAN + p * VARIANTS + v, p * VARIANTS + v);
            && 0 <= k < U32 && GenerationOf(k) == g && Announced(variants, g, k)
            && k !in Written(g, variants, out, at)
            && Written(g, variants, out, at + 1) == Written(g, variants, out, at)[k := out[p][v]]
  {
    KeyAt(g, p, v);
  }

  lemma {:induction false} WrittenSkips(g: u32, variants: seq<nat>, out: seq<seq<Template>>, p: nat)
    requires g <= LAST_GENERATION && Shaped(variants, out) && p < PLANS
    ensures Written(g, variants, out, p * VARIANTS + variants[p]) == Written(g, variants, out, (p + 1) * VARIANTS)
  {
    var (a, b) := (Written(g, variants, out, p * VARIANTS + variants[p]),
        Written(g, variants, out, (p + 1) * VARIANTS));
    forall k: u32 ensures k in a <==> k in b {
      if k in b {
        KeyParts(g, k);
        assert PlanAt(k) <= p;
      }
    }
  }

  /** No template of the generation is there. */
  predicate Unused(m: map<u32, Template>, g: u32) {
    forall k :: k in m ==> GenerationOf(k) != g
  }

  lemma StillUnused(was: map<u32, Template>, g: u32, more: map<u32, Template>, k: u32)
    requires Unused(was, g) && GenerationOf(k) == g && k !in more
    ensures k !in was + more
  {
  }

  lemma ShapedAt(variants: seq<nat>, out: seq<seq<Template>>, p: nat)
    requires Shaped(variants, out) && p < PLANS
    ensures |variants| == |out| == PLANS && |out[p]| == VARIANTS && variants[p] <= VARIANTS
  {
  }

  lemma WrittenNone(g: u32, variants: seq<nat>, out: seq<seq<Template>>, was: map<u32, Template>)
    requires g <= LAST_GENERATION && Shaped(variants, out)
    ensures was + Written(g, variants, out, 0) == was
  {
  }

  /** No write below `limit` is one that fails. */
  ghost predicate NoneFailed(fails: set<u32>, g: u32, variants: seq<nat>, limit: nat) {
    forall k :: k in fails && Announced(variants, g, k) ==> k - g * SPAN >= limit
  }

  lemma NoneYet(fails: set<u32>, g: u32, variants: seq<nat>)
    ensures NoneFailed(fails, g, variants, 0)
  {
  }

  lemma Inserted(was: map<u32, Template>, more: map<u32, Template>, k: u32, t: Template)
    ensures (was + more)[k := t] == was + more[k := t]
  {
  }

  lemma NextFine(fails: set<u32>, g: u32, variants: seq<nat>, k: u32, limit: nat)
    requires NoneFailed(fails, g, variants, limit) && k == g * SPAN + limit && k !in fails
    ensures NoneFailed(fails, g, variants, limit + 1)
  {
  }

  lemma {:induction false} SkipFine(fails: set<u32>, g: u32, variants: seq<nat>, p: nat)
    requires g <= LAST_GENERATION && |variants| == PLANS && p < PLANS && variants[p] <= VARIANTS
    requires NoneFailed(fails, g, variants, p * VARIANTS + variants[p])
    ensures NoneFailed(fails, g, variants, (p + 1) * VARIANTS)
  {
    forall k | k in fails && Announced(variants, g, k) ensures k - g * SPAN >= (p + 1) * VARIANTS {
      KeyParts(g, k);
    }
  }

  lemma AllFine(fails: set<u32>, g: u32, variants: seq<nat>)
    requires NoneFailed(fails, g, variants, SPAN)
    ensures forall k :: k in fails ==> !Announced(variants, g, k)
  {
  }

  /** A write of the generation to come extends a good history. */
  lemma {:induction false} NewWrite(h: seq<View>, w: View, k: u32, t: Template)
    requires HistoryOk(h) && h[|h| - 1].active < LAST_GENERATION
    requires w == h[|h| - 1].(templates := h[|h| - 1].templates[k := t]) && GenerationOf(k) == w.active + 1
    requires Windowed(w.configs, h[|h| - 1].templates, w.active - 1)
    ensures HistoryOk(h + [w]) && Windowed(w.configs, w.templates, w.active - 1)
  {
    hide Complete, Keeps;
    assert RecentTemplates(w.templates, w.active) == RecentTemplates(h[|h| - 1].templates, w.active);
    OldWrite(h, w, w.active - 1);
  }

  lemma {:induction false} SpanEmptied(was: map<u32, Template>, g: u32, variants: seq<nat>, out: seq<seq<Template>>,
        limit: nat)
    requires g <= LAST_GENERATION && Shaped(variants, out)
    requires Unused(was, g)
    ensures Without(was + Written(g, variants, out, limit), g * SPAN, g * SPAN + SPAN) == was
  {
    forall k: u32 ensures g * SPAN <= k < g * SPAN + SPAN <==> GenerationOf(k) == g {}
  }

  predicate Settled(v: View) {
    && v.active <= LAST_GENERATION && (v.active != 0 ==> v.active in v.configs)
    && (forall g: u32 :: g in v.configs ==> 0 < g <= v.active <= g + 2 && Whole(v, g))
    && (forall k: u32 :: k in v.templates ==> GenerationOf(k) in v.configs)
  }

  /** Half way through a reaping that began at `was`. */
  predicate Reaping(was: View, v: View) {
    && Settled(was) && v.active == was.active
    && (forall g: u32 :: g in v.configs ==> g in was.configs && v.configs[g] == was.configs[g])
    && (forall k: u32 :: k in v.templates ==> GenerationOf(k) in v.configs)
    && RecentConfigs(v.configs, v.active) == RecentConfigs(was.configs, v.active)
    && RecentTemplates(v.templates, v.active) == RecentTemplates(was.templates, v.active)
  }

  lemma ValidReaping(v: View)
    requires Settled(v)
    ensures Reaping(v, v)
  {
  }

  lemma {:induction false} ReapingWindow(was: View, v: View)
    requires Reaping(was, v)
    ensures Windowed(v.configs, v.templates, v.active - 2)
    ensures forall g :: g in v.configs ==> 0 < g <= v.active <= LAST_GENERATION
  {
    hide Whole, RecentTemplates, RecentConfigs;
  }

  lemma {:induction false} ReapedOne(was: View, v: View, cleared: View, w: View, g: u32)
    requires Reaping(was, v) && g in v.configs && !(g <= v.active <= g + 1)
    requires cleared == v.(templates := Without(v.templates, g * SPAN, g * SPAN + SPAN))
    requires w == cleared.(configs := v.configs - {g})
    ensures Reaping(was, w) && Windowed(w.configs, w.templates, w.active - 2)
    ensures RecentConfigs(w.configs, w.active) == RecentConfigs(cleared.configs, w.active)
    ensures RecentTemplates(w.templates, w.active) == RecentTemplates(cleared.templates, w.active)
  {
    hide Whole;
    forall k | k in w.templates ensures GenerationOf(k) in w.configs {
      assert !(g * SPAN <= k < g * SPAN + SPAN);
      assert GenerationOf(k) != g;
    }
    RecentWithout(v.templates, g, v.active);
    assert RecentConfigs(w.configs, w.active) == RecentConfigs(v.configs, w.active);
  }

  lemma {:induction false} RecentWithout(m: map<u32, Template>, g: u32, active: u32)
    requires !(g <= active <= g + 1)
    ensures RecentTemplates(Without(m, g * SPAN, g * SPAN + SPAN), active) == RecentTemplates(m, active)
  {
    forall k: u32 ensures g * SPAN <= k < g * SPAN + SPAN <==> GenerationOf(k) == g {}
  }

  lemma {:induction false} ReapingDone(was: View, v: View)
    requires Reaping(was, v) && forall g :: g in v.configs ==> g + 1 >= v.active
    ensures v.configs == RecentConfigs(was.configs, v.active)
    ensures v.templates == RecentTemplates(was.templates, v.active)
    ensures Settled(v)
  {
    hide Whole;
    assert v.configs == RecentConfigs(v.configs, v.active);
    assert v.templates == RecentTemplates(v.templates, v.active);
    forall g: u32 | g in v.configs ensures Whole(v, g) {
      assert Whole(was, g);
      WholeRecent(was, v, g);
    }
    if v.active != 0 { assert v.active in RecentConfigs(was.configs, v.active); }
  }

  lemma {:induction false} WholeRecent(was: View, v: View, g: u32)
    requires Whole(was, g) && g in v.configs && g in was.configs && v.configs[g] == was.configs[g]
    requires g <= v.active <= g + 1 && v.templates == RecentTemplates(was.templates, v.active)
    ensures Whole(v, g)
  {
  }

  /** The view once the generation's templates and configuration are all written. */
  function Prepared(v: View, o: Options, out: seq<seq<Template>>): View
    requires v.active < LAST_GENERATION && |o.templates| == PLANS && |o.variants| == PLANS && Shaped(Counts(o), out)
  {
    var gen := v.active + 1;
    View(v.active, RecentConfigs(v.configs, v.active)[gen := Config(gen, o.ruleMap, Counts(o))],
         RecentTemplates(v.templates, v.active) + Written(gen, Counts(o), out, SPAN))
  }

  lemma {:induction false} SettledUnused(v: View)
    requires Settled(v) && v.active < LAST_GENERATION && v.configs == RecentConfigs(v.configs, v.active)
    ensures Unused(v.templates, v.active + 1) && v.active + 1 !in v.configs
    ensures Windowed(v.configs, v.templates, v.active - 1)
  {
    hide Whole;
  }

  /** Adding the configuration keeps the two newest generations; so does taking it away again. */
  lemma {:induction false} ConfigWrite(h: seq<View>, w: View)
    requires HistoryOk(h) && w == h[|h| - 1].(configs := w.configs) && w.active < LAST_GENERATION
    requires w.configs - {w.active + 1} == h[|h| - 1].configs - {w.active + 1}
    requires Windowed(w.configs, w.templates, w.active - 1)
    ensures HistoryOk(h + [w])
  {
    hide Complete, Keeps;
    var (v, gen) := (h[|h| - 1], w.active + 1);
    forall g | g in v.configs && g != gen ensures g in w.configs && w.configs[g] == v.configs[g] {
      assert g in v.configs - {gen} && g in w.configs - {gen};
      assert (v.configs - {gen})[g] == (w.configs - {gen})[g];
    }
    forall g | g in w.configs && g != gen ensures g in v.configs {
      assert g in w.configs - {gen};
    }
    assert RecentConfigs(w.configs, w.active) == RecentConfigs(v.configs, w.active);
    OldWrite(h, w, w.active - 1);
  }

  lemma {:induction false} WithConfig(v: View, g: u32, c: Config)
    requires v.active < LAST_GENERATION && g == v.active + 1 && Windowed(v.configs, v.templates, v.active - 1)
    ensures Windowed(v.configs[g := c], v.templates, v.active - 1)
    ensures v.configs[g := c] - {g} == v.configs - {g}
    ensures g !in v.configs ==> v.configs[g := c] - {g} == v.configs && v.configs - {g} == v.configs
  {
  }

  lemma ConfigAdded(h: seq<View>, v: View, gen: u32, c: Config)
    requires HistoryOk(h) && v == h[|h| - 1] && gen == v.active + 1 <= LAST_GENERATION && gen !in v.configs
    requires Windowed(v.configs, v.templates, v.active - 1)
    ensures HistoryOk(h + [v.(configs := v.configs[gen := c])])
    ensures Windowed(v.configs[gen := c], v.templates, v.active - 1)
  {
    hide Complete, Keeps, Windowed;
    WithConfig(v, gen, c);
    ConfigWrite(h, v.(configs := v.configs[gen := c]));
  }

  lemma RecentTwice(m: map<u32, Config>, active: u32)
    ensures RecentConfigs(RecentConfigs(m, active), active) == RecentConfigs(m, active)
  {
  }

  lemma RendersShaped(o: Options, out: seq<seq<Template>>)
    requires Accepted(o) && Renders(o, out)
    ensures |o.templates| == PLANS && |o.variants| == PLANS && Shaped(Counts(o), out)
  {
  }

  /** Generations already live stay whole when another one is added. */
  lemma {:induction false} OthersWhole(was: View, w: View, gen: u32, more: map<u32, Template>, g: u32)
    requires Whole(was, g) && g != gen && w.templates == was.templates + more
    requires g in w.configs && w.configs[g] == was.configs[g]
    requires forall k :: k in more ==> GenerationOf(k) == gen
    ensures Whole(w, g)
  {
  }

  lemma CountsSound(g: u32, o: Options)
    requires Accepted(o)
    ensures Sound(Config(g, o.ruleMap, Counts(o)))
  {
  }

  lemma {:induction false} WrittenFilled(g: u32, o: Options, out: seq<seq<Template>>)
    requires g <= LAST_GENERATION && Accepted(o) && Renders(o, out) && Shaped(Counts(o), out)
    ensures forall k :: k in Written(g, Counts(o), out, SPAN) ==> Written(g, Counts(o), out, SPAN)[k].len > 0
  {
    forall k | k in Written(g, Counts(o), out, SPAN) ensures out[PlanAt(k)][k % VARIANTS].len > 0 {
      assert CountOf(o, PlanAt(k)) > 0;
    }
  }

  lemma {:induction false} NewWhole(was: View, w: View, variants: seq<nat>, out: seq<seq<Template>>)
    requires 0 < w.active <= LAST_GENERATION && Shaped(variants, out) && Unused(was.templates, w.active)
    requires w.templates == was.templates + Written(w.active, variants, out, SPAN)
    requires w.active in w.configs && w.configs[w.active].generation == w.active
    requires w.configs[w.active].variants == variants
    requires Sound(w.configs[w.active])
    requires forall k :: k in Written(w.active, variants, out, SPAN) ==>
      Written(w.active, variants, out, SPAN)[k].len > 0
    ensures Whole(w, w.active)
    ensures forall k :: k in Written(w.active, variants, out, SPAN) ==> GenerationOf(k) == w.active
  {
    forall k: u32 ensures w.active * SPAN <= k < w.active * SPAN + SPAN <==> GenerationOf(k) == w.active {}
  }

  /** Switching to the prepared generation: it is whole, and nothing else moved. */
  lemma {:induction false} Switched(was: View, v: View, o: Options, out: seq<seq<Template>>, w: View)
    requires Settled(was) && was.active < LAST_GENERATION && was.configs == RecentConfigs(was.configs, was.active)
    requires Accepted(o) && Renders(o, out) && Shaped(Counts(o), out)
    requires v == View(was.active, was.configs[was.active + 1 := Config(was.active + 1, o.ruleMap, Counts(o))],
                       was.templates + Written(was.active + 1, Counts(o), out, SPAN))
    requires w == v.(active := v.active + 1)
    ensures Settled(w) && Whole(w, w.active) && Keeps(v, w) && Windowed(w.configs, w.templates, w.active - 2)
  {
    hide Counts, Windowed, Unused, Written, Whole, Shaped, RecentConfigs, Sound, Renders;
    var (gen, more) := (w.active, Written(was.active + 1, Counts(o), out, SPAN));
    SettledUnused(was);
    CountsSound(gen, o);
    WrittenFilled(gen, o, out);
    NewWhole(was, w, Counts(o), out);
    forall g: u32 | g in w.configs ensures 0 < g <= gen <= g + 2 && Whole(w, g) {
      if g != gen {
        assert g in was.configs;
        assert was.active <= g + 1 by { RecentAt(was.configs, was.active, g); }
        OthersWhole(was, w, gen, more, g);
      }
    }
    SettledWindow(w);
  }

  lemma RecentAt(m: map<u32, Config>, active: u32, g: u32)
    requires g in RecentConfigs(m, active) || (m == RecentConfigs(m, active) && g in m)
    ensures g <= active <= g + 1
  {
    assert g in RecentConfigs(m, active);
  }

  lemma {:induction false} SettledWindow(v: View)
    requires Settled(v)
    ensures Windowed(v.configs, v.templates, v.active - 2)
  {
    hide Whole;
  }

  class Runtime {
    var configGen: u32
    var active: u32
    var configs: map<u32, Config>
    var templates: map<u32, Template>
    var order: seq<u32>
    ghost var history: seq<View>

    ghost function Now(): View reads this { View(active, configs, templates) }

    /** Readable and coherent at any point between two writes. */
    ghost predicate Coherent() reads this {
      && active == configGen <= LAST_GENERATION
      && Listing(order, configs)
      && HistoryOk(history) && history[|history| - 1] == Now()
    }

    /** Between operations every live generation is whole and no key belongs to any other. */
    ghost predicate Valid() reads this {
      Coherent() && Settled(Now())
    }

    constructor ()
      ensures Valid() && configGen == 0 && configs == map[] && templates == map[]
    {
      configGen, active, configs, templates, order := 0, 0, map[], map[], [];
      history := [View(0, map[], map[])];
    }

    method InsertTemplate(k: u32, t: Template, fault: bool) returns (ok: bool)
      modifies this`templates, this`history
      ensures ok <==> !fault && k !in old(templates) && |old(templates)| < TEMPLATES_MAX
      ensures templates == if ok then old(templates)[k := t] else old(templates)
      ensures history == if ok then old(history) + [Now()] else old(history)
    {
      ok := !fault && k !in templates && |templates| < TEMPLATES_MAX;
      if ok {
        templates := templates[k := t];
        history := history + [Now()];
      }
    }

    method InsertConfig(g: u32, c: Config, fault: bool) returns (ok: bool)
      requires Listing(order, configs)
      modifies this`configs, this`order, this`history
      ensures ok <==> !fault && g !in old(configs) && |old(configs)| < CONFIGS_MAX
      ensures configs == if ok then old(configs)[g := c] else old(configs)
      ensures history == if ok then old(history) + [Now()] else old(history)
      ensures Listing(order, configs)
    {
      ok := !fault && g !in configs && |configs| < CONFIGS_MAX;
      if ok {
        var at: nat :| at <= |order|;
        Relisted(order, configs, at, g, c);
        order, configs := order[..at] + [g] + order[at..], configs[g := c];
        history := history + [Now()];
      }
    }

    method DeleteTemplate(k: u32)
      modifies this`templates, this`history
      ensures templates == old(templates) - {k}
      ensures history == old(history) + [Now()]
    {
      templates := templates - {k};
      history := history + [Now()];
    }

    method DeleteConfig(g: u32)
      requires Listing(order, configs)
      modifies this`configs, this`order, this`history
      ensures configs == old(configs) - {g} && Listing(order, configs)
      ensures history == old(history) + [Now()]
      ensures g in old(configs) ==> |order| < |old(order)|
      ensures g !in old(configs) ==> order == old(order)
    {
      if g in configs {
        var i :| 0 <= i < |order| && order[i] == g;
        Unlisted(order, configs, i);
        order := order[..i] + order[i + 1..];
      } else {
        assert configs - {g} == configs;
      }
      configs := configs - {g};
      history := history + [Now()];
    }

    /** `bpf_map_get_next_key`: the first key, or the one after the position given. */
    method NextKey(key: u32, ghost position: nat) returns (next: Option<u32>)
      requires Listing(order, configs) && position <= |order|
      requires if key == 0 then position == 0 else position > 0 && order[position - 1] == key
      ensures next == if position < |order| then Some(order[position]) else None
    {
      if key == 0 {
        next := if |order| == 0 then None else Some(order[0]);
        return;
      }
      var i := 0;
      while order[i] != key
        invariant 0 <= i < position
        decreases position - i
      {
        i := i + 1;
      }
      next := if i + 1 < |order| then Some(order[i + 1]) else None;
    }

    /** Clears the whole span of a generation that is not one of the two newest. */
    method ClearSpan(g: u32, ghost lo: int)
      requires Coherent() && g <= LAST_GENERATION && !(g <= active <= g + 1)
      requires Windowed(configs, templates, lo)
      modifies this`templates, this`history
      ensures Coherent() && Windowed(configs, templates, lo)
      ensures templates == Without(old(templates), g * SPAN, g * SPAN + SPAN)
      ensures old(history) <= history
    {
      hide HistoryOk, Windowed, Without, RecentTemplates, RecentConfigs, Listing;
      ghost var was := templates;
      var base := g * SPAN;
      var v := 0;
      assert templates == Without(was, base, base) by { WithoutNone(was, base); }
      while v < SPAN
        invariant 0 <= v <= SPAN && Coherent() && Windowed(configs, templates, lo)
        invariant templates == Without(was, base, base + v) && old(history) <= history
      {
        ghost var (h, t) := (history, templates);
        DeleteTemplate(base + v);
        SpanKey(g, v);
        DeleteOther(t, base + v, active);
        WithoutNext(was, base, base + v);
        FewerWindowed(configs, t, base + v, lo);
        OldWrite(h, Now(), lo);
        v := v + 1;
      }
    }

    /** `reap_configs`: everything but the active generation and the one before it goes. */
    method Reap()
      requires Valid()
      modifies this`configs, this`templates, this`order, this`history
      ensures Valid()
      ensures configs == RecentConfigs(old(configs), active)
      ensures templates == RecentTemplates(old(templates), active)
      ensures old(history) <= history
    {
      hide HistoryOk, Settled, Reaping, Windowed, Without, RecentTemplates, RecentConfigs;
      ghost var was := Now();
      var key: u32 := 0;
      ghost var position := 0;
      ValidReaping(was);
      var next := NextKey(key, position);
      while next.Some?
        invariant Coherent() && active == was.active && Reaping(was, Now()) && old(history) <= history
        invariant position <= |order|
        invariant if key == 0 then position == 0 else position > 0 && order[position - 1] == key
        invariant next == if position < |order| then Some(order[position]) else None
        invariant forall i :: 0 <= i < position ==> order[i] + 1 >= configGen
        decreases |order|, |order| - position
      {
        key := next.value;
        position := position + 1;
        assert key in configs && key in order;
        ghost var before := Now();
        ReapingWindow(was, before);
        if (key + 1) % U32 < configGen {
          ClearSpan(key, active - 2);
          ghost var (h, cleared) := (history, Now());
          DeleteConfig(key);
          ReapedOne(was, before, cleared, Now(), key);
          OldWrite(h, Now(), active - 2);
          key, position := 0, 0;
        }
        next := NextKey(key, position);
      }
      assert forall g :: g in configs ==> g + 1 >= configGen by {
        forall g | g in configs ensures g + 1 >= configGen { assert g in order; }
      }
      ReapingDone(was, Now());
    }

    /** One write for the generation to come: there is always room for it. */
    method InsertNew(k: u32, t: Template, fault: bool) returns (ok: bool)
      requires Coherent() && active < LAST_GENERATION && Windowed(configs, templates, active - 1)
      requires GenerationOf(k) == active + 1 && k !in templates
      modifies this`templates, this`history
      ensures Coherent() && Windowed(configs, templates, active - 1) && old(history) <= history
      ensures ok <==> !fault
      ensures templates == if ok then old(templates)[k := t] else old(templates)
    {
      hide HistoryOk, Windowed, Listing, GenerationOf;
      WindowSize(configs, templates, active - 1);
      ghost var (h, was) := (history, Now());
      ok := InsertTemplate(k, t, fault);
      if ok {
        assert Now() == was.(templates := was.templates[k := t]);
        NewWrite(h, Now(), k, t);
      }
    }

    /** Writes one plan's variants in order, stopping at the first write that fails. */
    method WritePlan(gen: u32, plan: nat, count: nat, out: seq<seq<Template>>, fails: set<u32>,
        ghost counts: seq<nat>, ghost was: map<u32, Template>)
      returns (ok: bool, ghost limit: nat)
      requires Coherent() && gen == active + 1 <= LAST_GENERATION && plan < PLANS
      requires Windowed(configs, was, active - 1) && Windowed(configs, templates, active - 1)
      requires Unused(was, gen)
      requires Shaped(counts, out) && count == counts[plan]
          && templates == was + Written(gen, counts, out, plan * VARIANTS)
      requires NoneFailed(fails, gen, counts, plan * VARIANTS)
      modifies this`templates, this`history
      ensures Coherent() && Windowed(configs, templates, active - 1) && old(history) <= history
      ensures templates == was + Written(gen, counts, out, limit)
      ensures ok ==> limit == plan * VARIANTS + count && NoneFailed(fails, gen, counts, limit)
      ensures !ok ==> exists k :: k in fails && Announced(counts, gen, k)
    {
      hide HistoryOk, Windowed, Written, Listing, Announced, NoneFailed, GenerationOf, Unused, Shaped, Counts;
      assert |out| == PLANS && |out[plan]| == VARIANTS && count <= VARIANTS by { ShapedAt(counts, out, plan); }
      var (row, v) := (out[plan], 0);
      limit := plan * VARIANTS;
      while v < count
        invariant 0 <= v <= count && limit == plan * VARIANTS + v
        invariant Coherent() && Windowed(configs, templates, active - 1) && old(history) <= history
        invariant templates == was + Written(gen, counts, out, limit)
        invariant NoneFailed(fails, gen, counts, limit)
      {
        var k := gen * SPAN + plan * VARIANTS + v;
        WrittenNext(gen, counts, out, plan, v);
        StillUnused(was, gen, Written(gen, counts, out, limit), k);
        var written := InsertNew(k, row[v], k in fails);
        if !written {
          ok := false;
          return;
        }
        NextFine(fails, gen, counts, k, limit);
        Inserted(was, Written(gen, counts, out, limit), k, row[v]);
        v, limit := v + 1, limit + 1;
      }
      ok := true;
    }

    /** Writes every template the counts announce, stopping at the first write that fails. */
    method WriteTemplates(gen: u32, o: Options, out: seq<seq<Template>>, fails: set<u32>)
      returns (ok: bool, variants: seq<nat>, ghost limit: nat)
      requires Coherent() && gen == active + 1 <= LAST_GENERATION
      requires Windowed(configs, templates, active - 1) && Unused(templates, gen)
      requires |o.templates| == PLANS && |o.variants| == PLANS && Shaped(Counts(o), out)
      modifies this`templates, this`history
      ensures Coherent() && Windowed(configs, templates, active - 1) && old(history) <= history
      ensures templates == old(templates) + Written(gen, Counts(o), out, limit)
      ensures ok ==> limit == SPAN && variants == Counts(o)
      ensures ok <==> forall k :: k in fails ==> !Announced(Counts(o), gen, k)
    {
      hide HistoryOk, Windowed, Written, Listing, Announced, NoneFailed;
      ghost var (counts, was) := (Counts(o), templates);
      variants := seq(PLANS, _ => 1);
      var plan := 0;
      limit := 0;
      WrittenNone(gen, counts, out, was);
      NoneYet(fails, gen, counts);
      while plan < PLANS
        invariant 0 <= plan <= PLANS && |variants| == PLANS
        invariant forall p :: 0 <= p < plan ==> variants[p] == counts[p]
        invariant Coherent() && Windowed(configs, templates, active - 1) && old(history) <= history
        invariant limit == plan * VARIANTS && templates == was + Written(gen, counts, out, limit)
        invariant NoneFailed(fails, gen, counts, limit)
      {
        if o.templates[plan].len == 0 {
          variants := variants[plan := 0];
        } else {
          var count := if o.variants[plan] != 0 then o.variants[plan] else 1;
          if count > VARIANTS { count := VARIANTS; }
          variants := variants[plan := count];
          ok, limit := WritePlan(gen, plan, count, out, fails, counts, was);
          if !ok { return; }
        }
        WrittenSkips(gen, counts, out, plan);
        SkipFine(fails, gen, counts, plan);
        plan := plan + 1;
        limit := plan * VARIANTS;
      }
      AllFine(fails, gen, counts);
      ok := true;
    }

    method WriteActive(gen: u32, fault: bool) returns (ok: bool)
      modifies this`active, this`history
      ensures ok <==> !fault
      ensures active == (if ok then gen else old(active))
      ensures history == if ok then old(history) + [Now()] else old(history)
    {
      ok := !fault;
      if ok {
        active := gen;
        history := history + [Now()];
      }
    }

    /** Takes back whatever the unfinished generation wrote. */
    method Rollback(gen: u32, ghost was: View, ghost variants: seq<nat>, ghost out: seq<seq<Template>>,
          ghost limit: nat)
      requires Coherent() && gen == active + 1 <= LAST_GENERATION && Windowed(configs, templates, active - 1)
      requires was.active == active && Unused(was.templates, gen) && gen !in was.configs
      requires Windowed(was.configs, was.templates, active - 1)
      requires Shaped(variants, out) && templates == was.templates + Written(gen, variants, out, limit)
      requires configs - {gen} == was.configs
      modifies this`templates, this`configs, this`order, this`history
      ensures Coherent() && Now() == was && old(history) <= history
    {
      hide HistoryOk, Windowed, Listing, Written, Without, Unused;
      SpanEmptied(was.templates, gen, variants, out, limit);
      ClearSpan(gen, active - 1);
      ghost var h := history;
      DeleteConfig(gen);
      assert configs - {gen} == configs;
      ConfigWrite(h, Now());
    }

    /** The configuration of the generation to come: there is always room for it. */
    method AddConfig(gen: u32, c: Config, fault: bool) returns (ok: bool)
      requires Coherent() && gen == active + 1 <= LAST_GENERATION && gen !in configs
      requires Windowed(configs, templates, active - 1)
      modifies this`configs, this`order, this`history
      ensures Coherent() && Windowed(configs, templates, active - 1) && old(history) <= history
      ensures ok <==> !fault
      ensures configs == if ok then old(configs)[gen := c] else old(configs)
    {
      hide HistoryOk, Windowed, Listing, RecentConfigs;
      WindowSize(configs, templates, active - 1);
      ghost var (h, was) := (history, Now());
      ConfigAdded(h, was, gen, c);
      ok := InsertConfig(gen, c, fault);
    }

    /** The write that makes the prepared generation the active one. */
    method Switch(gen: u32, fault: bool, ghost was: View, ghost o: Options, ghost out: seq<seq<Template>>)
      returns (ok: bool)
      requires Coherent() && gen == active + 1 <= LAST_GENERATION
      requires Settled(was) && was.active == active && was.configs == RecentConfigs(was.configs, active)
      requires Accepted(o) && Renders(o, out) && Shaped(Counts(o), out)
      requires configs == was.configs[gen := Config(gen, o.ruleMap, Counts(o))]
      requires templates == was.templates + Written(gen, Counts(o), out, SPAN)
      modifies this`active, this`configGen, this`history
      ensures old(history) <= history && ok == !fault
      ensures ok ==> Valid() && configGen == active == gen
      ensures !ok ==> Coherent() && active == old(active) && configGen == old(configGen)
    {
      hide HistoryOk, Windowed, Listing, Written, Settled, RecentConfigs, Whole, Shaped, Counts, Keeps, Renders;
      ghost var (h, prepared) := (history, Now());
      ok := WriteActive(gen, fault);
      if ok {
        Switched(was, prepared, o, out, Now());
        WindowSize(configs, templates, active - 2);
        Extended(h, Now());
        configGen := gen;
      }
    }

    /** The last two writes: the configuration, then the switch. */
    method PublishConfig(gen: u32, o: Options, variants: seq<nat>, ghost out: seq<seq<Template>>, ghost was: View,
        failConfig: bool, failActive: bool)
      returns (ok: bool)
      requires Coherent() && gen == active + 1 <= LAST_GENERATION && Windowed(configs, templates, active - 1)
      requires Settled(was) && was.active == active && was.configs == RecentConfigs(was.configs, active)
          && configs == was.configs
      requires Accepted(o) && Renders(o, out) && Shaped(Counts(o), out) && variants == Counts(o)
      requires templates == was.templates + Written(gen, variants, out, SPAN)
      modifies this
      ensures Valid() && old(history) <= history
      ensures ok <==> !failConfig && !failActive
      ensures ok ==> configGen == gen && Now() == View(gen, was.configs[gen := Config(gen, o.ruleMap, variants)],
                                                      was.templates + Written(gen, variants, out, SPAN))
      ensures !ok ==> configGen == old(configGen) && Now() == was
    {
      hide HistoryOk, Windowed, Listing, Written, Settled, Unused, RecentConfigs, RecentTemplates, Whole, Shaped,
          Counts, Keeps, Renders;
      SettledUnused(was);
      ghost var before := Now();
      ok := AddConfig(gen, Config(gen, o.ruleMap, variants), failConfig);
      WithConfig(before, gen, Config(gen, o.ruleMap, variants));
      if ok { ok := Switch(gen, failActive, was, o, out); }
      if !ok { Rollback(gen, was, variants, out, SPAN); }
    }

    /**
     Publishes the next generation. It succeeds unless the generations are used up, rendering
     failed or a write failed of its own accord: the maps always have room. On success the new
     generation is active beside the one before it; on failure the active generation and the one
     before it are exactly as they were, and the same number is free again.
     */
    method Publish(o: Options, rendered: Option<seq<seq<Template>>>, fails: set<u32>, failConfig: bool,
          failActive: bool)
      returns (ok: bool)
      requires Valid() && Accepted(o) && (rendered.Some? ==> Renders(o, rendered.value))
      modifies this
      ensures Valid() && old(history) <= history
      ensures ok <==> old(configGen) < LAST_GENERATION && rendered.Some? && !failConfig && !failActive
                      && forall k :: k in fails ==> !Announced(Counts(o), old(configGen) + 1, k)
      ensures ok ==> configGen == old(configGen) + 1
      ensures ok ==> Shaped(Counts(o), rendered.value)
                     && Now() == Prepared(old(Now()), o, rendered.value).(active := old(active) + 1)
      ensures !ok ==> configGen == old(configGen) && active == old(active)
      ensures !ok && old(configGen) == LAST_GENERATION ==> Now() == old(Now())
      ensures !ok && old(configGen) < LAST_GENERATION ==>
                Now() == View(active, RecentConfigs(old(configs), active), RecentTemplates(old(templates), active))
    {
      hide HistoryOk, Windowed, Listing, Written, Settled, Unused, RecentConfigs, RecentTemplates, Announced, Whole;
      hide Without, Shaped, Accepted, Renders, Counts;
      var gen := (configGen + 1) % U32;
      if gen > (U32 - 1) / SPAN { return false; }
      Reap();
      if rendered.None? { return false; }
      ghost var was := Now();
      RecentTwice(old(configs), active);
      SettledUnused(was);
      RendersShaped(o, rendered.value);
      var written, variants, limit := WriteTemplates(gen, o, rendered.value, fails);
      if !written {
        Rollback(gen, was, Counts(o), rendered.value, limit);
        return false;
      }
      ok := PublishConfig(gen, o, variants, rendered.value, was, failConfig, failActive);
    }
  }
}
