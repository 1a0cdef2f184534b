/**
 Rendering the variants of every plan (ebpf/user/templates.c:140-241): what the publication takes for
 granted about them is what the two payload printers give.
 */
module Rendering {
  import opened Bytes
  import opened Common
  import opened Abi
  import opened Generations
  import C = ClientHello
  import S = SipTemplate

  /** A payload plan: none, fixed bytes, a ClientHello rendered anew, or a SIP text patched in its ranges. */
  datatype Plan =
    | Absent
    | Same(base: Template)
    | Render(host: seq<byte>, random: seq<byte>)
    | Patch(text: string, ranges: seq<S.Range>)

  /** The random bytes of one variant, and whether drawing them fails. */
  datatype Draw = Draw(random: seq<byte>, tokens: seq<seq<byte>>, noRandom: bool)

  function Ascii(s: string): (b: seq<byte>)
    requires S.Printable(s)
    ensures |b| == |s|
  {
    seq(|s|, i requires 0 <= i < |s| => s[i] as int)
  }

  function TemplateOf(b: seq<byte>): (t: Template)
    requires |b| <= PAYLOAD_MAX
    ensures t.len == |b|
  {
    var t := RawTemplate(|b|, b + Zeros(PAYLOAD_MAX - |b|));
    assert t.data[t.len..] == Zeros(PAYLOAD_MAX - t.len);
    t
  }

  /** What reading the configuration leaves: payloads of 1 to 1200 bytes, names and texts that were accepted. */
  predicate Ready(p: Plan) {
    match p
    case Absent => true
    case Same(base) => 0 < base.len <= PAYLOAD_MAX
    case Render(host, random) => |host| <= C.NAME_MAX && |random| == 64
    case Patch(text, ranges) =>
      && 0 < |text| < PAYLOAD_MAX && S.Printable(text) && S.Fits(|text|, ranges)
      && forall i :: 0 <= i < |ranges| ==> ranges[i].bytes > 0
  }

  predicate Drawn(p: Plan, d: Draw) {
    |d.random| == 64 && (p.Patch? ==> S.Supplies(d.tokens, p.ranges))
  }

  function BaseOf(p: Plan): (t: Template)
    requires Ready(p)
    ensures p.Absent? <==> t.len == 0
  {
    match p
    case Absent => RawTemplate(0, Zeros(PAYLOAD_MAX))
    case Same(base) => base
    case Render(host, random) =>
      C.HelloReads(host, random);
      TemplateOf(C.Printed(host, random))
    case Patch(text, _) => TemplateOf(Ascii(text))
  }

  function CountFor(p: Plan): nat { if p.Render? || p.Patch? then VARIANTS else 1 }

  function PatchedTemplate(p: Plan, d: Draw): Template
    requires p.Patch? && Ready(p) && Drawn(p, d)
  {
    S.PatchedPrintable(p.text, p.ranges, d.tokens, |p.ranges|);
    TemplateOf(Ascii(S.Patched(p.text, p.ranges, d.tokens, |p.ranges|)))
  }

  /** A variant after the first: rendered anew, patched, or the base again. */
  function Another(p: Plan, d: Draw): Template
    requires Ready(p) && Drawn(p, d)
  {
    match p
    case Render(host, _) => BaseOf(Render(host, d.random))
    case Patch(_, _) => PatchedTemplate(p, d)
    case _ => BaseOf(p)
  }

  function VariantOf(p: Plan, d: Draw, v: nat): Template
    requires Ready(p) && Drawn(p, d)
  {
    if 0 < v < CountFor(p) then Another(p, d) else BaseOf(p)
  }

  /** All variants of a plan have one length. */
  lemma VariantLength(p: Plan, d: Draw, v: nat)
    requires Ready(p) && Drawn(p, d)
    ensures VariantOf(p, d, v).len == BaseOf(p).len
  {
    if p.Render? {
      C.HelloReads(p.host, d.random);
      C.HelloReads(p.host, p.random);
    }
  }

  /** One variant after the first; None when the random bytes fail. */
  method RenderOne(p: Plan, d: Draw) returns (t: Option<Template>)
    requires Ready(p) && Drawn(p, d)
    ensures t.None? <==> p.Render? && d.noRandom
    ensures t.Some? ==> t.value == Another(p, d)
  {
    match p {
      case Render(host, _) =>
        var a := new byte[PAYLOAD_MAX](_ => 0);
        var len := C.Tls(a, host, d.random, d.noRandom);
        if len.None? { return None; }
        C.HelloReads(host, d.random);
        C.HelloReads(host, p.random);
        t := Some(TemplateOf(C.Printed(host, d.random)));
      case Patch(text, ranges) =>
        var data := new char[|text|](i requires 0 <= i < |text| => text[i]);
        assert data[..] == text;
        var ok := S.PatchVariant(data, ranges, d.tokens);
        assert ok && data[..] == S.Patched(text, ranges, d.tokens, |ranges|);
        S.PatchedPrintable(text, ranges, d.tokens, |ranges|);
        t := Some(TemplateOf(Ascii(data[..])));
      case _ => t := Some(BaseOf(p));
    }
  }

  /** A rendered SIP text is a plan that is ready. */
  lemma SipReady(p: S.Parts)
    requires S.Drawn(p) && |S.Text(p)| < PAYLOAD_MAX
    ensures Ready(Patch(S.Text(p), S.Ranges(p)))
  {
    hide S.Text, S.BranchAt, S.TagAt, S.CallIdAt;
    S.TextPrintable(p);
    S.RangesFit(p);
    assert S.Ranges(p)[0].off + 32 < |S.Text(p)|;
    assert forall i :: 0 <= i < 3 ==> S.Ranges(p)[i].bytes > 0;
  }

  /** All variants of one plan. The unused tail repeats the base. */
  method RenderPlan(p: Plan, draws: seq<Draw>) returns (out: Option<seq<Template>>)
    requires Ready(p) && |draws| == VARIANTS && forall v :: 0 <= v < VARIANTS ==> Drawn(p, draws[v])
    ensures out.None? <==> p.Render? && exists v :: 0 < v < VARIANTS && draws[v].noRandom
    ensures out.Some? ==> |out.value| == VARIANTS
    ensures out.Some? ==> forall v :: 0 <= v < VARIANTS ==> out.value[v] == VariantOf(p, draws[v], v)
  {
    hide BaseOf, Another, Ready, Drawn;
    var templates: seq<Template> := [BaseOf(p)];
    var (count, v) := (CountFor(p), 1);
    while v < count
      invariant 1 <= v <= count && |templates| == v
      invariant forall u :: 0 <= u < v ==> templates[u] == VariantOf(p, draws[u], u)
      invariant p.Render? ==> forall u :: 0 < u < v ==> !draws[u].noRandom
    {
      var t := RenderOne(p, draws[v]);
      if t.None? { return None; }
      templates := templates + [t.value];
      v := v + 1;
    }
    while v < VARIANTS
      invariant count <= v <= VARIANTS && |templates| == v
      invariant forall u :: 0 <= u < v ==> templates[u] == VariantOf(p, draws[u], u)
    {
      templates := templates + [BaseOf(p)];
      v := v + 1;
    }
    return Some(templates);
  }

  /** The options that go with four plans and the enabled rules. */
  function OptionsOf(plans: seq<Plan>, ruleMap: seq<nat>): Options
    requires |plans| == PLANS && forall p :: 0 <= p < PLANS ==> Ready(plans[p])
  {
    Options(seq(PLANS, p requires 0 <= p < PLANS => BaseOf(plans[p])),
            seq(PLANS, p requires 0 <= p < PLANS => CountFor(plans[p])), ruleMap)
  }

  /** They are what publication asks of options: the UDP plan and every enabled rule have a payload. */
  lemma OptionsAccepted(plans: seq<Plan>, ruleMap: seq<nat>)
    requires |plans| == PLANS && (forall p :: 0 <= p < PLANS ==> Ready(plans[p])) && !plans[PLAN_UDP].Absent?
    requires 0 < |ruleMap| <= RULES_MAX
    requires forall i :: 0 <= i < |ruleMap| ==> ruleMap[i] < RULES_MAX && !plans[ruleMap[i]].Absent?
    ensures Accepted(OptionsOf(plans, ruleMap))
  {
    hide BaseOf;
  }

  ghost predicate AllDrawn(plans: seq<Plan>, draws: seq<seq<Draw>>) {
    && |plans| == |draws| == PLANS
    && (forall p :: 0 <= p < PLANS ==> Ready(plans[p]) && |draws[p]| == VARIANTS)
    && forall p, v :: 0 <= p < PLANS && 0 <= v < VARIANTS ==> Drawn(plans[p], draws[p][v])
  }

  /** The random bytes of some further ClientHello cannot be drawn. */
  ghost predicate DrawFails(plans: seq<Plan>, draws: seq<seq<Draw>>)
    requires AllDrawn(plans, draws)
  {
    exists p, v :: 0 <= p < PLANS && 0 < v < VARIANTS && plans[p].Render? && draws[p][v].noRandom
  }

  /** A variant of every plan, rendered. */
  ghost predicate Rendered(plans: seq<Plan>, draws: seq<seq<Draw>>, out: seq<seq<Template>>)
    requires AllDrawn(plans, draws)
  {
    && |out| == PLANS && (forall p :: 0 <= p < PLANS ==> |out[p]| == VARIANTS)
    && forall p, v :: 0 <= p < PLANS && 0 <= v < VARIANTS ==> out[p][v] == VariantOf(plans[p], draws[p][v], v)
  }

  /** `ff_variants`: it fails exactly on a failed draw, and gives every variant of every plan. */
  method RenderAll(plans: seq<Plan>, draws: seq<seq<Draw>>) returns (out: Option<seq<seq<Template>>>)
    requires AllDrawn(plans, draws)
    ensures out.None? <==> DrawFails(plans, draws)
    ensures out.Some? ==> Rendered(plans, draws, out.value)
  {
    hide BaseOf, Ready, Drawn, VariantOf;
    var rows: seq<seq<Template>> := [];
    var plan := 0;
    while plan < PLANS
      invariant 0 <= plan <= PLANS && |rows| == plan
      invariant forall p :: 0 <= p < plan ==> |rows[p]| == VARIANTS
      invariant forall p, v :: 0 <= p < plan && 0 <= v < VARIANTS ==> rows[p][v] == VariantOf(plans[p], draws[p][v], v)
      invariant forall p, v :: 0 <= p < plan && 0 < v < VARIANTS && plans[p].Render? ==> !draws[p][v].noRandom
    {
      var row := RenderPlan(plans[plan], draws[plan]);
      if row.None? { return None; }
      rows := rows + [row.value];
      plan := plan + 1;
    }
    return Some(rows);
  }

  /** Whatever is drawn, the result is a rendering of the options: the base first, none of another length. */
  lemma RenderedOptions(plans: seq<Plan>, ruleMap: seq<nat>, draws: seq<seq<Draw>>, out: seq<seq<Template>>)
    requires AllDrawn(plans, draws) && Rendered(plans, draws, out)
    ensures Renders(OptionsOf(plans, ruleMap), out)
    ensures forall p, v :: 0 <= p < PLANS && 0 <= v < VARIANTS ==> out[p][v].len == BaseOf(plans[p]).len
  {
    hide BaseOf, Ready, Drawn, Another;
    forall p, v | 0 <= p < PLANS && 0 <= v < VARIANTS ensures out[p][v].len == BaseOf(plans[p]).len {
      VariantLength(plans[p], draws[p][v], v);
    }
    forall p | 0 <= p < PLANS ensures out[p][0] == BaseOf(plans[p]) {
      assert VariantOf(plans[p], draws[p][0], 0) == BaseOf(plans[p]);
    }
  }

  // ---------- what a published template says ----------

  /** A ClientHello that names the host. */
  ghost predicate Names(t: Template, host: seq<byte>) {
    t.len == C.HELLO_BYTES <= |t.data|
    && var r := C.Read(t.data[..t.len]);
       r.Some? && |r.value.extensions| > 0 && C.ServerName(r.value.extensions[0].data) == Some(host)
  }

  /** A SIP call to the URI, with its fields where the ranges say. */
  ghost predicate Calls(t: Template, uri: string, ranges: seq<S.Range>) {
    exists q :: S.Drawn(q) && q.uri == uri && S.Ranges(q) == ranges && S.Printable(S.Text(q))
      && |S.Text(q)| <= PAYLOAD_MAX && t == TemplateOf(Ascii(S.Text(q)))
  }

  /** The template reads as what its plan disguises the connection as. */
  ghost predicate Reads(t: Template, p: Plan) {
    match p
    case Render(host, _) => Names(t, host)
    case Patch(text, ranges) =>
      forall q :: S.Drawn(q) && text == S.Text(q) && ranges == S.Ranges(q) ==> Calls(t, q.uri, ranges)
    case Same(base) => t == base
    case Absent => t.len == 0
  }

  lemma HelloNames(host: seq<byte>, random: seq<byte>)
    requires |host| <= C.NAME_MAX && |random| == 64
    ensures Names(BaseOf(Render(host, random)), host)
  {
    hide C.Read, C.Printed, C.ServerName;
    C.HelloReads(host, random);
    var b := C.Printed(host, random);
    assert (b + Zeros(PAYLOAD_MAX - |b|))[..|b|] == b;
  }

  lemma PatchedCalls(p: Plan, d: Draw, q: S.Parts)
    requires p.Patch? && Ready(p) && Drawn(p, d) && S.Drawn(q) && p.text == S.Text(q) && p.ranges == S.Ranges(q)
    ensures Calls(PatchedTemplate(p, d), q.uri, p.ranges) && Calls(BaseOf(p), q.uri, p.ranges)
  {
    hide S.Text, S.BranchAt, S.TagAt, S.CallIdAt, S.Hex, S.Patched;
    S.VariantIsRendering(q, d.tokens);
    S.PatchedPrintable(p.text, p.ranges, d.tokens, |p.ranges|);
    var other := S.Parts(q.uri, S.Hex(d.tokens[0]), S.Hex(d.tokens[1]), S.Hex(d.tokens[2]));
    assert S.Drawn(other) && S.Patched(p.text, p.ranges, d.tokens, |p.ranges|) == S.Text(other);
  }

  lemma RenderedReads(p: Plan, d: Draw, v: nat)
    requires p.Render? && Ready(p) && Drawn(p, d)
    ensures Reads(VariantOf(p, d, v), p)
  {
    hide BaseOf, Names;
    HelloNames(p.host, p.random);
    HelloNames(p.host, d.random);
  }

  lemma PatchedVariant(p: Plan, d: Draw, v: nat)
    requires p.Patch? && Ready(p) && Drawn(p, d)
    ensures VariantOf(p, d, v) == PatchedTemplate(p, d) || VariantOf(p, d, v) == BaseOf(p)
  {
    hide PatchedTemplate, BaseOf, Ready, Drawn;
  }

  lemma PatchedReads(p: Plan, d: Draw, v: nat)
    requires p.Patch? && Ready(p) && Drawn(p, d)
    ensures Reads(VariantOf(p, d, v), p)
  {
    hide Ready, Drawn, Calls, PatchedTemplate, BaseOf, VariantOf, S.Drawn, S.Text, S.Ranges;
    forall q | S.Drawn(q) && p.text == S.Text(q) && p.ranges == S.Ranges(q)
      ensures Calls(VariantOf(p, d, v), q.uri, p.ranges)
    {
      PatchedVariant(p, d, v);
      PatchedCalls(p, d, q);
    }
  }

  /** Every variant of every plan reads as its plan says. */
  lemma VariantReads(p: Plan, d: Draw, v: nat)
    requires Ready(p) && Drawn(p, d)
    ensures Reads(VariantOf(p, d, v), p)
  {
    hide Drawn, S.Drawn, S.Text, S.Ranges, S.Printable, S.Fits;
    if p.Render? {
      RenderedReads(p, d, v);
    } else if p.Patch? {
      PatchedReads(p, d, v);
    }
  }

  /** Every template of the generation is the rendered variant its key names, and reads as its plan says. */
  ghost predicate Shows(v: View, plans: seq<Plan>, draws: seq<seq<Draw>>)
    requires AllDrawn(plans, draws)
  {
    forall k: u32 :: GenerationOf(k) == v.active && k in v.templates ==>
      && v.templates[k] == VariantOf(plans[PlanAt(k)], draws[PlanAt(k)][k % VARIANTS], k % VARIANTS)
      && Reads(v.templates[k], plans[PlanAt(k)])
  }

  lemma PreparedShows(was: View, plans: seq<Plan>, ruleMap: seq<nat>, draws: seq<seq<Draw>>,
      out: seq<seq<Template>>)
    requires AllDrawn(plans, draws) && Rendered(plans, draws, out) && was.active < LAST_GENERATION
    requires Shaped(Counts(OptionsOf(plans, ruleMap)), out)
    ensures Shows(Prepared(was, OptionsOf(plans, ruleMap), out).(active := was.active + 1), plans, draws)
  {
    hide Counts, BaseOf, Ready, Drawn, VariantOf, Reads, Announced;
    var gen := was.active + 1;
    var now := Prepared(was, OptionsOf(plans, ruleMap), out).(active := gen);
    forall k: u32 | GenerationOf(k) == gen && k in now.templates
      ensures now.templates[k] == VariantOf(plans[PlanAt(k)], draws[PlanAt(k)][k % VARIANTS], k % VARIANTS)
      ensures Reads(now.templates[k], plans[PlanAt(k)])
    {
      var (p, v) := (PlanAt(k), k % VARIANTS);
      assert now.templates[k] == out[p][v];
      VariantReads(plans[p], draws[p][v], v);
    }
  }

  /** Rendering and publishing: nothing is taken for granted about the templates. */
  method RenderAndPublish(r: Runtime, plans: seq<Plan>, ruleMap: seq<nat>, draws: seq<seq<Draw>>, fails: set<u32>,
      failConfig: bool, failActive: bool)
    returns (ok: bool)
    requires r.Valid() && AllDrawn(plans, draws) && !plans[PLAN_UDP].Absent?
    requires 0 < |ruleMap| <= RULES_MAX
    requires forall i :: 0 <= i < |ruleMap| ==> ruleMap[i] < RULES_MAX && !plans[ruleMap[i]].Absent?
    modifies r
    ensures r.Valid() && old(r.history) <= r.history
    ensures ok <==> old(r.configGen) < LAST_GENERATION && !DrawFails(plans, draws) && !failConfig && !failActive
                    && forall k :: k in fails ==> !Announced(Counts(OptionsOf(plans, ruleMap)), old(r.configGen) + 1, k)
    ensures ok ==> r.configGen == old(r.configGen) + 1 && Whole(r.Now(), r.active)
    ensures ok ==> r.active in r.configs && r.configs[r.active].variants == Counts(OptionsOf(plans, ruleMap))
    ensures ok ==> Shows(r.Now(), plans, draws)
    ensures !ok ==> r.active == old(r.active) && r.configGen == old(r.configGen)
  {
    hide BaseOf, Ready, Drawn, Renders, Accepted, HistoryOk, Rendered, Shows, DrawFails, Announced;
    OptionsAccepted(plans, ruleMap);
    var rendered := RenderAll(plans, draws);
    ghost var was := r.Now();
    if rendered.Some? { RenderedOptions(plans, ruleMap, draws, rendered.value); }
    ok := r.Publish(OptionsOf(plans, ruleMap), rendered, fails, failConfig, failActive);
    if ok { PreparedShows(was, plans, ruleMap, draws, rendered.value); }
  }
}
