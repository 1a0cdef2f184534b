/**
 What the printer of the configuration text writes, the parser reads: line by line, section by
 section and as a whole, with the exact condition under which it does.
 */
module ConfigRoundTrip {
  import opened Common
  import opened ConfigText

  // ---------- reading one printed line ----------

  lemma {:induction false} StripPast(a: string, b: string, quoted: bool)
    requires forall k :: 0 <= k < |a| ==> a[k] != '"' && (quoted || a[k] != '#')
    ensures Strip(a + b, quoted) == a + Strip(b, quoted)
  {
    if a == "" {
      assert a + b == b;
    } else {
      StripPast(a[1..], b, quoted);
      assert (a + b)[1..] == a[1..] + b;
    }
  }

  lemma {:induction false} StripWhole(s: string)
    requires forall k :: 0 <= k < |s| ==> s[k] != '#'
    ensures forall q :: Strip(s, q) == s
  {
    if s != "" { StripWhole(s[1..]); }
  }

  lemma {:induction false} StripQuoted(s: string)
    requires AllQuotable(s)
    ensures Strip(Quoted(s), false) == Quoted(s)
  {
    assert Quoted(s)[1..] == s + "\"";
    StripPast(s, "\"", true);
    assert Strip("\"", true) == "\"";
  }

  /** A value that survives on its line. */
  predicate Clean(value: string) {
    && value != "" && !IsSpace(value[0]) && !IsSpace(value[|value| - 1])
    && (forall k :: 0 <= k < |value| ==> !EndsLine(value[k]))
    && Strip(value, false) == value
  }

  lemma {:induction false} QuotedClean(s: string)
    requires Plain(s)
    ensures Clean(Quoted(s)) && Unquoted(Quoted(s)) == Some(s)
  {
    StripQuoted(s);
    assert Quoted(s)[1..|Quoted(s)| - 1] == s;
  }

  lemma {:induction false} DigitsClean(s: string)
    requires AllDigits(s)
    ensures Clean(s)
  {
    StripWhole(s);
  }

  lemma {:induction false} TrimWhole(s: string)
    requires s != "" && !IsSpace(s[0]) && !IsSpace(s[|s| - 1])
    ensures Trim(s) == s
  {
  }

  lemma {:induction false} KeyRunIs(a: string, b: string)
    requires (forall k :: 0 <= k < |a| ==> KeyChar(a[k])) && b != "" && !KeyChar(b[0])
    ensures KeyRun(a + b) == |a|
  {
    assert forall k :: 0 <= k < |a| ==> (a + b)[k] == a[k];
    assert (a + b)[|a|] == b[0];
  }

  predicate KeyName(key: string) { key != "" && forall k :: 0 <= k < |key| ==> KeyChar(key[k]) }

  lemma {:induction false} TrimStartSpace(s: string)
    requires s != "" && !IsSpace(s[0])
    ensures TrimStart(s) == s && TrimStart(" " + s) == s
  {
    assert (" " + s)[1..] == s;
  }

  lemma {:induction false} MatchIs(key: string, value: string)
    requires KeyName(key) && Clean(value)
    ensures Match(Pair(key, value)) == Some((key, value))
  {
    hide TrimStart, KeyRun;
    var (line, tail) := (Pair(key, value), "= " + value);
    assert line == key + (" " + tail);
    KeyRunIs(key, " " + tail);
    assert line[|key|..] == " " + tail && line[..|key|] == key;
    TrimStartSpace(tail);
    assert tail[1..] == " " + value;
    TrimStartSpace(value);
  }

  lemma {:induction false} StepKey(st: State, key: string, value: string, json: Json)
    requires KeyName(key) && Clean(value)
    ensures Step(st, Pair(key, value), json) == Assign(st, key, value, json)
  {
    hide Assign, Match, Trim, Clean;
    var line := Pair(key, value);
    KeyLineKept(key, value);
    MatchIs(key, value);
    assert line[0] == key[0] && KeyChar(line[0]);
    assert line != "[[interfaces]]" && line != "[[tcp.rule]]" && HeaderOf(line).None?;
  }

  lemma {:induction false} KeyLineKept(key: string, value: string)
    requires KeyName(key) && Clean(value)
    ensures Trim(Strip(Pair(key, value), false)) == Pair(key, value)
  {
    var line := Pair(key, value);
    assert line == (key + " = ") + value;
    StripPast(key + " = ", value, false);
    assert line[0] == key[0] && line[|line| - 1] == value[|value| - 1];
    TrimWhole(line);
  }

  lemma {:induction false} StepBlank(st: State, json: Json)
    ensures Step(st, "", json) == Some(st)
  {
  }

  lemma {:induction false} HeaderKept(line: string)
    requires line != "" && line[0] == '[' && line[|line| - 1] == ']' && forall k :: 0 <= k < |line| ==> line[k] != '#'
    ensures Trim(Strip(line, false)) == line
  {
    StripWhole(line);
    TrimWhole(line);
  }

  /** Before the first section the parser takes a `_proto__` line with any plain string, and it changes no setting. */
  lemma {:induction false} PrototypeKey(st: State, s: string, json: Json)
    requires st.section == Top && Plain(s) && (Top, 0, "_proto__") !in st.seen
    ensures Step(st, Pair("_proto__", Quoted(s)), json) == Some(st.(seen := st.seen + {(Top, 0, "_proto__")}))
  {
    hide Step, Clean, Unquoted, Pair, Quoted;
    assert KeyName("_proto__");
    QuotedClean(s);
    StepKey(st, "_proto__", Quoted(s), json);
  }

  // ---------- reading the printed lines of a section ----------

  lemma {:induction false} RunPast(st: State, a: seq<string>, b: seq<string>, json: Json)
    ensures Run(st, a + b, json) == match Run(st, a, json) case None => None case Some(next) => Run(next, b, json)
    decreases |a|
  {
    hide Step;
    if a == [] {
      assert a + b == b;
    } else {
      assert (a + b)[1..] == a[1..] + b;
      match Step(st, a[0], json)
      case None =>
      case Some(next) => RunPast(next, a[1..], b, json);
    }
  }

  /** The arrays the printer writes are read as what they say. */
  ghost predicate ReadsWords(json: Json) {
    && json("[\"active\", \"passive\"]") == Some([Word("active"), Word("passive")])
    && json("[\"active\"]") == Some([Word("active")]) && json("[\"passive\"]") == Some([Word("passive")])
  }

  /** The value of a written setting once read back: numbers lose their leading zeros. */
  function NormalValue(f: Field, s: Settings): string {
    var v := Get(s, f.section, f.key);
    if f.kind.Number? && AllDigits(v) then Decimal(ToNat(v)) else v
  }

  function Updated(into: Settings, fields: seq<Field>, s: Settings): Settings
    decreases |fields|
  {
    if fields == [] then into
    else
      var f := fields[0];
      Updated(if Print(f, s).Write? then into[Id(f.section, f.key) := NormalValue(f, s)] else into, fields[1..], s)
  }

  function Noted(fields: seq<Field>, s: Settings): set<(Section, nat, string)> {
    if fields == [] then {}
    else (if Print(fields[0], s).Write? then {(fields[0].section, 0, fields[0].key)} else {}) + Noted(fields[1..], s)
  }

  predicate DistinctKeys(fields: seq<Field>) {
    forall i, j :: 0 <= i < j < |fields| ==> fields[i].key != fields[j].key
  }

  predicate KnownField(f: Field, section: Section) {
    f.section == section && KeyName(f.key) && Lookup(FieldsOf(section), f.key) == Some(f)
    && f.section in {Tcp, Udp, Injection, Runtime} && (f.kind == Ports ==> f.retired)
  }

  predicate Known(fields: seq<Field>, section: Section) {
    && DistinctKeys(fields)
    && forall i :: 0 <= i < |fields| ==> KnownField(fields[i], section)
  }

  /** Every text setting that is written is plain. */
  predicate PlainFields(fields: seq<Field>, s: Settings) {
    forall i :: 0 <= i < |fields| && fields[i].kind == Line && Print(fields[i], s).Write?
        ==> Plain(Get(s, fields[i].section, fields[i].key))
  }

  /** Printable ASCII without a hash. */
  predicate Tame(s: string) { forall k :: 0 <= k < |s| ==> 32 <= s[k] as int < 127 && s[k] != '#' }

  lemma {:induction false} TameClean(s: string)
    requires Tame(s) && s != "" && s[0] != ' ' && s[|s| - 1] != ' '
    ensures Clean(s)
  {
    StripWhole(s);
  }

  lemma {:induction false} BothRead(json: Json)
    requires ReadsWords(json)
    ensures var text := "[\"active\", \"passive\"]"; Clean(text) && Value(Directions, text, json) == Some("both")
  {
    hide Clean;
    TameClean("[\"active\", \"passive\"]");
  }

  lemma {:induction false} ActiveRead(json: Json)
    requires ReadsWords(json)
    ensures Clean("[\"active\"]") && Value(Directions, "[\"active\"]", json) == Some("active")
  {
    hide Clean;
    TameClean("[\"active\"]");
  }

  lemma {:induction false} PassiveRead(json: Json)
    requires ReadsWords(json)
    ensures Clean("[\"passive\"]") && Value(Directions, "[\"passive\"]", json) == Some("passive")
  {
    hide Clean;
    TameClean("[\"passive\"]");
  }

  lemma {:induction false} Bracketed()
    ensures "[" + Quoted("active") + "]" == "[\"active\"]" && "[" + Quoted("passive") + "]" == "[\"passive\"]"
  {
  }

  lemma {:induction false} DirectionsRead(s: string, json: Json)
    requires ReadsWords(json) && s in ["both", "active", "passive"]
    ensures var text := if s == "both" then "[\"active\", \"passive\"]" else "[" + Quoted(s) + "]";
            Clean(text) && Value(Directions, text, json) == Some(s)
  {
    hide *;
    BothRead(json);
    ActiveRead(json);
    PassiveRead(json);
    Bracketed();
  }

  /** Choices are words. */
  predicate PlainChoices(k: Kind) {
    k.Choice? ==> forall i :: 0 <= i < |k.options| ==> Plain(k.options[i])
  }

  lemma {:induction false} WrittenReads(f: Field, s: Settings, json: Json)
    requires Print(f, s).Write? && ReadsWords(json) && PlainChoices(f.kind)
    requires f.kind == Line ==> Plain(Get(s, f.section, f.key))
    ensures Clean(Print(f, s).text) && Value(f.kind, Print(f, s).text, json) == Some(NormalValue(f, s))
  {
    hide Clean, Strip, AllQuotable, Unquoted, Skipped;
    var v := Get(s, f.section, f.key);
    match f.kind
    case Flag => FlagsClean();
    case Number(_, _) => DigitsClean(Decimal(ToNat(v)));
    case Directions => DirectionsRead(v, json);
    case Choice(options) =>
      assert Plain(v);
      QuotedClean(v);
    case Line => QuotedClean(v);
  }

  lemma {:induction false} FlagsClean()
    ensures Clean("true") && Clean("false")
  {
    StripWhole("true");
    StripWhole("false");
  }

  lemma {:induction false} FieldRuns(st: State, f: Field, s: Settings, json: Json)
    requires KnownField(f, st.section) && (st.section, 0, f.key) !in st.seen
    requires Print(f, s).Write? && ReadsWords(json) && PlainChoices(f.kind)
    requires f.kind == Line ==> Plain(Get(s, f.section, f.key))
    ensures Step(st, Pair(f.key, Print(f, s).text), json)
         == Some(st.(settings := st.settings[Id(f.section, f.key) := NormalValue(f, s)],
             seen := st.seen + {(f.section, 0, f.key)}))
  {
    hide Step, Clean, Value, Print, Lookup, FieldsOf, NormalValue;
    WrittenReads(f, s, json);
    StepKey(st, f.key, Print(f, s).text, json);
  }

  lemma {:induction false} KeyLinesRun(st: State, fields: seq<Field>, s: Settings, json: Json)
    requires Known(fields, st.section) && ReadsWords(json) && KeyLines(fields, s).Some? && PlainFields(fields, s)
    requires forall i :: 0 <= i < |fields| ==>
      (st.section, 0, fields[i].key) !in st.seen && PlainChoices(fields[i].kind)
    ensures Run(st, KeyLines(fields, s).value, json)
         == Some(st.(settings := Updated(st.settings, fields, s), seen := st.seen + Noted(fields, s)))
    decreases |fields|
  {
    hide Step, Print, NormalValue, KnownField, Plain, PlainChoices;
    if fields == [] {
      assert st.(seen := st.seen + {}) == st;
    } else {
      var (f, more) := (fields[0], fields[1..]);
      assert forall i :: 0 <= i < |more| ==> more[i] == fields[i + 1];
      if Print(f, s).Write? {
        SectionOf(f, st.section);
        FieldRuns(st, f, s, json);
        var next := st.(settings := st.settings[Id(f.section, f.key) := NormalValue(f, s)],
            seen := st.seen + {(f.section, 0, f.key)});
        KeyLinesRun(next, more, s, json);
        assert next.seen + Noted(more, s) == st.seen + Noted(fields, s);
      } else {
        KeyLinesRun(st, more, s, json);
        assert Noted(fields, s) == Noted(more, s);
      }
    }
  }

  lemma SectionOf(f: Field, section: Section)
    requires KnownField(f, section)
    ensures f.section == section
  {
  }

  // ---------- the tables of fields ----------

  lemma {:induction false} LookupDistinct(fields: seq<Field>, i: nat)
    requires DistinctKeys(fields) && i < |fields|
    ensures Lookup(fields, fields[i].key) == Some(fields[i])
  {
    if i > 0 {
      assert fields[0].key != fields[i].key;
      assert DistinctKeys(fields[1..]) by {
        assert forall j :: 0 <= j < |fields[1..]| ==> fields[1..][j] == fields[j + 1];
      }
      LookupDistinct(fields[1..], i - 1);
    }
  }

  /** Each field of a table is well formed by itself. */
  predicate Shaped(fields: seq<Field>, section: Section) {
    forall i :: 0 <= i < |fields| ==> ShapedField(fields[i], section)
  }

  /** A key's length and first letter in one number; no two keys of a table agree on it. */
  function Code(key: string): int {
    if key == "" then 0 else |key| * 100 + (key[0] as int - 'a' as int)
  }

  predicate ShapedField(f: Field, section: Section) {
    f.section == section && KeyName(f.key) && (f.kind == Ports ==> f.retired) && PlainChoices(f.kind)
  }

  /** A table whose keys have these codes, all different, has distinct keys. */
  lemma {:induction false} ByCodes(fields: seq<Field>, codes: seq<int>, section: Section)
    requires |fields| == |codes| && forall i, j :: 0 <= i < j < |codes| ==> codes[i] != codes[j]
    requires forall i :: 0 <= i < |fields| ==> ShapedField(fields[i], section) && Code(fields[i].key) == codes[i]
    ensures DistinctKeys(fields) && Shaped(fields, section)
  {
    hide Code, ShapedField;
  }

  const TCP_CODES := [704, 1003, 715, 807, 1215, 1407, 1807, 1107, 319, 1112]

  lemma {:induction false} TcpKeys()
    ensures KeyName("enabled") && Code("enabled") == 704
    ensures KeyName("directions") && Code("directions") == 1003
    ensures KeyName("payload") && Code("payload") == 715
    ensures KeyName("hostname") && Code("hostname") == 807
    ensures KeyName("payload_file") && Code("payload_file") == 1215
    ensures KeyName("https_hostname") && Code("https_hostname") == 1407
    ensures KeyName("https_payload_file") && Code("https_payload_file") == 1807
    ensures KeyName("https_ports") && Code("https_ports") == 1107
    ensures KeyName("tfo") && Code("tfo") == 319
    ensures KeyName("max_batches") && Code("max_batches") == 1112
  {
  }

  lemma {:induction false} TcpField(i: nat)
    requires i < |TcpFields()|
    ensures |TcpFields()| == |TCP_CODES| && ShapedField(TcpFields()[i], Tcp) && Code(TcpFields()[i].key) == TCP_CODES[i]
  {
    hide KeyName, Code, PlainChoices;
    TcpKeys();
    ChoicesPlain();
  }

  lemma {:induction false} TcpShaped()
    ensures DistinctKeys(TcpFields()) && Shaped(TcpFields(), Tcp)
  {
    forall i | 0 <= i < |TcpFields()| ensures ShapedField(TcpFields()[i], Tcp)
        && Code(TcpFields()[i].key) == TCP_CODES[i] {
      TcpField(i);
    }
    ByCodes(TcpFields(), TCP_CODES, Tcp);
  }

  const UDP_CODES := [704, 719, 715, 718, 1215, 1508, 2008]

  lemma {:induction false} UdpKeys()
    ensures KeyName("enabled") && Code("enabled") == 704
    ensures KeyName("trigger") && Code("trigger") == 719
    ensures KeyName("payload") && Code("payload") == 715
    ensures KeyName("sip_uri") && Code("sip_uri") == 718
    ensures KeyName("payload_file") && Code("payload_file") == 1215
    ensures KeyName("initial_packets") && Code("initial_packets") == 1508
    ensures KeyName("idle_timeout_seconds") && Code("idle_timeout_seconds") == 2008
  {
  }

  lemma {:induction false} UdpField(i: nat)
    requires i < |UdpFields()|
    ensures |UdpFields()| == |UDP_CODES| && ShapedField(UdpFields()[i], Udp) && Code(UdpFields()[i].key) == UDP_CODES[i]
  {
    hide KeyName, Code, PlainChoices;
    UdpKeys();
    ChoicesPlain();
  }

  lemma {:induction false} UdpShaped()
    ensures DistinctKeys(UdpFields()) && Shaped(UdpFields(), Udp)
  {
    forall i | 0 <= i < |UdpFields()| ensures ShapedField(UdpFields()[i], Udp)
        && Code(UdpFields()[i].key) == UDP_CODES[i] {
      UdpField(i);
    }
    ByCodes(UdpFields(), UDP_CODES, Udp);
  }

  const INJECTION_CODES := [319, 617, 1304, 1503, 2212, 501, 1300]

  lemma {:induction false} InjectionKeys()
    ensures KeyName("ttl") && Code("ttl") == 319
    ensures KeyName("repeat") && Code("repeat") == 617
    ensures KeyName("estimate_hops") && Code("estimate_hops") == 1304
    ensures KeyName("dynamic_percent") && Code("dynamic_percent") == 1503
    ensures KeyName("max_packets_per_second") && Code("max_packets_per_second") == 2212
    ensures KeyName("burst") && Code("burst") == 501
    ensures KeyName("allow_private") && Code("allow_private") == 1300
  {
  }

  lemma {:induction false} InjectionField(i: nat)
    requires i < |InjectionFields()|
    ensures |InjectionFields()| == |INJECTION_CODES|
    ensures ShapedField(InjectionFields()[i], Injection) && Code(InjectionFields()[i].key) == INJECTION_CODES[i]
  {
    hide KeyName, Code, PlainChoices;
    InjectionKeys();
    ChoicesPlain();
  }

  lemma {:induction false} InjectionShaped()
    ensures DistinctKeys(InjectionFields()) && Shaped(InjectionFields(), Injection)
  {
    forall i | 0 <= i < |InjectionFields()| ensures ShapedField(InjectionFields()[i], Injection)
        && Code(InjectionFields()[i].key) == INJECTION_CODES[i] {
      InjectionField(i);
    }
    ByCodes(InjectionFields(), INJECTION_CODES, Injection);
  }

  const RUNTIME_CODES := [1119, 1120, 1311]

  lemma {:induction false} RuntimeKeys()
    ensures KeyName("tcp_entries") && Code("tcp_entries") == 1119
    ensures KeyName("udp_entries") && Code("udp_entries") == 1120
    ensures KeyName("lease_seconds") && Code("lease_seconds") == 1311
  {
  }

  lemma {:induction false} RuntimeField(i: nat)
    requires i < |RuntimeFields()|
    ensures |RuntimeFields()| == |RUNTIME_CODES|
    ensures ShapedField(RuntimeFields()[i], Runtime) && Code(RuntimeFields()[i].key) == RUNTIME_CODES[i]
  {
    hide KeyName, Code, PlainChoices;
    RuntimeKeys();
    ChoicesPlain();
  }

  lemma {:induction false} RuntimeShaped()
    ensures DistinctKeys(RuntimeFields()) && Shaped(RuntimeFields(), Runtime)
  {
    forall i | 0 <= i < |RuntimeFields()| ensures ShapedField(RuntimeFields()[i], Runtime)
        && Code(RuntimeFields()[i].key) == RUNTIME_CODES[i] {
      RuntimeField(i);
    }
    ByCodes(RuntimeFields(), RUNTIME_CODES, Runtime);
  }

  lemma {:induction false} ChoicesPlain()
    ensures PlainChoices(Choice(["http", "tls", "custom"])) && PlainChoices(Choice(["strip-syn", "preserve"]))
    ensures PlainChoices(Choice(["egress", "both"])) && PlainChoices(Choice(["sip", "custom"]))
    ensures forall k: Kind :: !k.Choice? ==> PlainChoices(k)
  {
    WordsPlain();
    hide Plain;
  }

  lemma {:induction false} WordsPlain()
    ensures Plain("http") && Plain("tls") && Plain("custom") && Plain("strip-syn") && Plain("preserve")
    ensures Plain("egress") && Plain("both") && Plain("sip")
  {
  }

  predicate Settable(section: Section) { section in {Tcp, Udp, Injection, Runtime} }

  lemma {:induction false} AllKnown(section: Section)
    requires Settable(section)
    ensures Known(FieldsOf(section), section) && Shaped(FieldsOf(section), section)
  {
    hide TcpFields, UdpFields, InjectionFields, RuntimeFields, KeyName, PlainChoices;
    TcpShaped();
    UdpShaped();
    InjectionShaped();
    RuntimeShaped();
    var fields := FieldsOf(section);
    forall i | 0 <= i < |fields| ensures KnownField(fields[i], section) {
      LookupDistinct(fields, i);
    }
  }

  // ---------- whole tables ----------

  function HeaderName(section: Section): string
    requires Settable(section)
  {
    match section
    case Tcp => "tcp"
    case Udp => "udp"
    case Injection => "injection"
    case _ => "runtime"
  }

  lemma {:induction false} StepHeader(st: State, section: Section, json: Json)
    requires Settable(section) && section !in st.sections
    ensures Step(st, "[" + HeaderName(section) + "]", json)
         == Some(st.(section := section, sections := st.sections + {section}))
  {
    hide Strip, Trim, Match, Assign;
    var line := "[" + HeaderName(section) + "]";
    assert line == match section
      case Tcp => "[tcp]"
      case Udp => "[udp]"
      case Injection => "[injection]"
      case _ => "[runtime]";
    HeaderKept(line);
    assert HeaderOf(line) == Some(section);
    assert line != "[[interfaces]]" && line != "[[tcp.rule]]";
  }

  lemma {:induction false} StepTables(st: State, json: Json)
    ensures Step(st, "[[interfaces]]", json)
        == Some(st.(section := Interfaces, interfaces := st.interfaces + [Interface("", "ethernet")]))
    ensures Step(st, "[[tcp.rule]]", json) == Some(st.(section := Rules, rules := st.rules + [NewRule()]))
  {
    hide Strip, Trim, Match, Assign;
    HeaderKept("[[interfaces]]");
    HeaderKept("[[tcp.rule]]");
  }

  /** Nothing of a section's keys has been seen. */
  ghost predicate Unseen(st: State, section: Section) {
    section !in st.sections && forall n: nat, key: string :: (section, n, key) !in st.seen
  }

  /** Only keys of one section are new. */
  ghost predicate SeenGrew(st: State, next: State, section: Section) {
    forall id :: id in next.seen ==> id in st.seen || id.0 == section
  }

  lemma {:induction false} NotedSection(fields: seq<Field>, s: Settings, section: Section)
    requires forall i :: 0 <= i < |fields| ==> fields[i].section == section
    ensures forall id :: id in Noted(fields, s) ==> id.0 == section
  {
    if fields != [] { NotedSection(fields[1..], s, section); }
  }

  lemma {:induction false} SectionRun(st: State, section: Section, s: Settings, json: Json) returns (next: State)
    requires Settable(section) && Unseen(st, section) && ReadsWords(json)
    requires SectionLines(section, HeaderName(section), s).Some? && PlainFields(FieldsOf(section), s)
    ensures Run(st, SectionLines(section, HeaderName(section), s).value, json) == Some(next)
    ensures next == st.(section := section, sections := st.sections + {section}, seen := next.seen,
                        settings := Updated(st.settings, FieldsOf(section), s))
    ensures SeenGrew(st, next, section)
  {
    hide Step, FieldsOf, Updated, Noted, KeyLines, HeaderName, Run, ShapedField;
    AllKnown(section);
    var fields := FieldsOf(section);
    var entered := st.(section := section, sections := st.sections + {section});
    var lines := KeyLines(fields, s).value;
    StepBlank(st, json);
    StepHeader(st, section, json);
    RunTwo(st, "", "[" + HeaderName(section) + "]", lines, entered, json);
    ShapedChoices(fields, section);
    KeyLinesRun(entered, fields, s, json);
    ShapedSection(fields, section);
    NotedSection(fields, s, section);
    next := entered.(settings := Updated(st.settings, fields, s), seen := st.seen + Noted(fields, s));
  }

  lemma ShapedSection(fields: seq<Field>, section: Section)
    requires Shaped(fields, section)
    ensures forall i :: 0 <= i < |fields| ==> fields[i].section == section
  {
  }

  lemma ShapedChoices(fields: seq<Field>, section: Section)
    requires Shaped(fields, section)
    ensures forall i :: 0 <= i < |fields| ==> PlainChoices(fields[i].kind)
  {
  }

  lemma {:induction false} RunTwo(st: State, a: string, b: string, lines: seq<string>, next: State, json: Json)
    requires Step(st, a, json).Some? && Step(Step(st, a, json).value, b, json) == Some(next)
    ensures Run(st, [a, b] + lines, json) == Run(next, lines, json)
  {
    hide Step;
    var all := [a, b] + lines;
    assert all[1..] == [b] + lines && all[1..][1..] == lines;
  }

  // ---------- interfaces ----------

  ghost predicate SeenUpTo(st: State, next: State, section: Section, n: nat) {
    forall id :: id in next.seen ==> id in st.seen || (id.0 == section && id.1 <= n)
  }

  ghost predicate TableUnseen(st: State, section: Section) {
    forall n: nat, key: string :: (section, n, key) !in st.seen
  }

  ghost predicate RowUnseen(st: State, section: Section, n: nat) {
    forall key: string :: (section, n, key) !in st.seen
  }

  lemma RowAfter(st: State, next: State, section: Section, n: nat)
    requires TableUnseen(st, section) && SeenUpTo(st, next, section, n)
    ensures RowUnseen(next, section, n + 1)
  {
  }

  lemma SeenFurther(st: State, mid: State, next: State, section: Section, n: nat)
    requires SeenUpTo(st, mid, section, n) && SeenUpTo(mid, next, section, n + 1)
    ensures SeenUpTo(st, next, section, n + 1)
  {
  }

  lemma SeenNothing(st: State, section: Section)
    ensures SeenUpTo(st, st, section, 0)
  {
  }

  lemma {:induction false} NamePlain(s: string)
    requires ValidName(s)
    ensures Plain(s)
  {
  }

  lemma {:induction false} ModePlain(s: string)
    requires s in Modes()
    ensures Plain(s)
  {
  }

  /** A key line of a table row. */
  lemma {:induction false} RowKey(st: State, key: string, value: string, v: string, json: Json)
    requires KeyName(key) && Clean(value) && (st.section, Repeat(st), key) !in st.seen
    requires st.section == Interfaces || st.section == Rules
    requires KindOf(st.section, key).Some? && Value(KindOf(st.section, key).value, value, json) == Some(v)
    ensures Step(st, Pair(key, value), json)
        == Some(Store(st.(seen := st.seen + {(st.section, Repeat(st), key)}), key, v))
  {
    hide Step, Clean, KindOf, Value, Store;
    StepKey(st, key, value, json);
  }

  lemma {:induction false} RowNames()
    ensures KeyName("name") && KeyName("mode") && KeyName("type") && KeyName("payload") && KeyName("enabled")
        && KeyName("comment")
  {
  }

  lemma {:induction false} InterfaceRun(st: State, d: Interface, json: Json) returns (next: State)
    requires Plain(d.name) && Plain(d.mode)
    requires RowUnseen(st, Interfaces, |st.interfaces| + 1)
    ensures Run(st, ["", "[[interfaces]]", Pair("name", Quoted(d.name)), Pair("mode", Quoted(d.mode))], json)
        == Some(next)
    ensures next == st.(section := Interfaces, interfaces := st.interfaces + [d], seen := next.seen)
    ensures SeenUpTo(st, next, Interfaces, |next.interfaces|)
  {
    hide Step, Clean, Unquoted, KeyName, Plain, Quoted;
    StepBlank(st, json);
    StepTables(st, json);
    RowNames();
    QuotedClean(d.name);
    QuotedClean(d.mode);
    var n := |st.interfaces|;
    var a := st.(section := Interfaces, interfaces := st.interfaces + [Interface("", "ethernet")]);
    RowKey(a, "name", Quoted(d.name), d.name, json);
    var b := a.(interfaces := st.interfaces + [Interface(d.name, "ethernet")],
        seen := st.seen + {(Interfaces, n + 1, "name")});
    assert Store(a.(seen := st.seen + {(Interfaces, n + 1, "name")}), "name", d.name) == b;
    RowKey(b, "mode", Quoted(d.mode), d.mode, json);
    next := b.(interfaces := st.interfaces + [d], seen := b.seen + {(Interfaces, n + 1, "mode")});
    assert Store(b.(seen := b.seen + {(Interfaces, n + 1, "mode")}), "mode", d.mode) == next;
    RunFour(st, "", "[[interfaces]]", Pair("name", Quoted(d.name)), Pair("mode", Quoted(d.mode)), a, b, next, json);
  }

  lemma {:induction false} RunOne(st: State, line: string, rest: seq<string>, next: State, json: Json)
    requires Step(st, line, json) == Some(next)
    ensures Run(st, [line] + rest, json) == Run(next, rest, json)
  {
    hide Step;
    assert ([line] + rest)[1..] == rest;
  }

  lemma {:induction false} RunFour(st: State, l0: string, l1: string, l2: string, l3: string, a: State, b: State,
        next: State, json: Json)
    requires Step(st, l0, json) == Some(st) && Step(st, l1, json) == Some(a) && Step(a, l2, json) == Some(b)
    requires Step(b, l3, json) == Some(next)
    ensures Run(st, [l0, l1, l2, l3], json) == Some(next)
  {
    hide Step, Run;
    RunOne(st, l0, [l1, l2, l3], st, json);
    RunOne(st, l1, [l2, l3], a, json);
    RunOne(a, l2, [l3], b, json);
    RunOne(b, l3, [], next, json);
    RunNothing(next, json);
    assert [l0] + [l1, l2, l3] == [l0, l1, l2, l3] && [l1] + [l2, l3] == [l1, l2, l3] && [l2] + [l3] == [l2, l3]
        && [l3] + [] == [l3];
  }

  lemma {:induction false} InterfacesRun(st: State, list: seq<Interface>, json: Json) returns (next: State)
    requires st.interfaces == [] && TableUnseen(st, Interfaces)
    requires forall i :: 0 <= i < |list| ==> Plain(list[i].name) && Plain(list[i].mode)
    ensures Run(st, InterfaceLines(list), json) == Some(next)
    ensures next == st.(section := if list == [] then st.section else Interfaces, interfaces := list, seen := next.seen)
    ensures SeenUpTo(st, next, Interfaces, |list|)
    decreases |list|
  {
    hide Step, Plain, Quoted, Run, Pair, SeenUpTo, TableUnseen, RowUnseen;
    if list == [] {
      RunNothing(st, json);
      SeenNothing(st, Interfaces);
      next := st;
    } else {
      var n := |list| - 1;
      var before := InterfacesRun(st, list[..n], json);
      RowAfter(st, before, Interfaces, n);
      next := InterfaceRun(before, list[n], json);
      SeenFurther(st, before, next, Interfaces, n);
      RunPast(st, InterfaceLines(list[..n]),
              ["", "[[interfaces]]", Pair("name", Quoted(list[n].name)), Pair("mode", Quoted(list[n].mode))], json);
      assert list[..n] + [list[n]] == list;
    }
  }

  lemma RunNothing(st: State, json: Json)
    ensures Run(st, [], json) == Some(st)
  {
  }

  // ---------- rules ----------

  /** A rule as it is read back. */
  function NormalRule(r: Rule): Rule {
    Rule(if r.enabled == "1" then "1" else "0", TypeOf(r), r.payload, r.comment)
  }

  function RuleState(st: State, r: Rule, keys: set<(Section, nat, string)>): State {
    st.(section := Rules, rules := st.rules + [r], seen := st.seen + keys)
  }

  /** One key of the last rule. */
  lemma {:induction false} RuleKey(st: State, r: Rule, keys: set<(Section, nat, string)>, key: string, value: string,
        v: string,
      r': Rule, json: Json)
    requires RowUnseen(st, Rules, |st.rules| + 1) && KeyName(key) && Clean(value)
    requires (Rules, |st.rules| + 1, key) !in keys
    requires KindOf(Rules, key).Some? && Value(KindOf(Rules, key).value, value, json) == Some(v)
    requires r' == if key == "enabled" then r.(enabled := v) else if key == "type" then r.(kind := v)
                   else if key == "payload" then r.(payload := v) else r.(comment := v)
    ensures Step(RuleState(st, r, keys), Pair(key, value), json)
         == Some(RuleState(st, r', keys + {(Rules, |st.rules| + 1, key)}))
  {
    hide Step, Clean, KindOf, Value, KeyName;
    var a := RuleState(st, r, keys);
    RowKey(a, key, value, v, json);
    assert a.rules[|st.rules| := r'] == st.rules + [r'];
    assert a.seen + {(Rules, |st.rules| + 1, key)} == st.seen + (keys + {(Rules, |st.rules| + 1, key)});
  }

  lemma {:induction false} RuleValues(r: Rule, json: Json)
    requires Plain(r.payload) && Plain(r.comment)
    ensures Clean(Quoted(TypeOf(r))) && Clean(Quoted(r.payload)) && Clean(Quoted(r.comment)) && Clean("true")
        && Clean("false")
    ensures Value(Choice(["http", "tls", "custom"]), Quoted(TypeOf(r)), json) == Some(TypeOf(r))
    ensures Value(Line, Quoted(r.payload), json) == Some(r.payload) && Value(Line, Quoted(r.comment), json)
        == Some(r.comment)
  {
    hide Clean, Unquoted, Quoted;
    TypePlain(r);
    QuotedClean(TypeOf(r));
    QuotedClean(r.payload);
    QuotedClean(r.comment);
    FlagsClean();
  }

  lemma {:induction false} TypePlain(r: Rule)
    ensures Plain(TypeOf(r))
  {
  }

  /** The lines of a rule before its comment. */
  function RuleHead(r: Rule): seq<string> {
    ["", "[[tcp.rule]]", Pair("type", Quoted(TypeOf(r))), Pair("payload", Quoted(r.payload)),
        Pair("enabled", if r.enabled == "1" then "true" else "false")]
  }

  function HeadRule(r: Rule): Rule {
    Rule(if r.enabled == "1" then "1" else "0", TypeOf(r), r.payload, "")
  }

  function HeadKeys(n: nat): set<(Section, nat, string)> {
    {(Rules, n, "type"), (Rules, n, "payload"), (Rules, n, "enabled")}
  }

  lemma {:induction false} HeadRun(st: State, r: Rule, json: Json)
    requires Plain(r.payload) && Plain(r.comment) && RowUnseen(st, Rules, |st.rules| + 1)
    ensures Run(st, RuleHead(r), json) == Some(RuleState(st, HeadRule(r), HeadKeys(|st.rules| + 1)))
  {
    hide Step, Clean, Unquoted, KeyName, Plain, Quoted, Pair, Run, RowUnseen;
    var n := |st.rules| + 1;
    StepBlank(st, json);
    StepTables(st, json);
    RowNames();
    RuleValues(r, json);
    var (r1, r2) := (Rule("1", TypeOf(r), "", ""), Rule("1", TypeOf(r), r.payload, ""));
    var keys := {(Rules, n, "type"), (Rules, n, "payload")};
    RuleKey(st, NewRule(), {}, "type", Quoted(TypeOf(r)), TypeOf(r), r1, json);
    assert {} + {(Rules, n, "type")} == {(Rules, n, "type")};
    RuleKey(st, r1, {(Rules, n, "type")}, "payload", Quoted(r.payload), r.payload, r2, json);
    assert {(Rules, n, "type")} + {(Rules, n, "payload")} == keys;
    RuleKey(st, r2, keys, "enabled", if r.enabled == "1" then "true" else "false", HeadRule(r).enabled, HeadRule(r),
        json);
    assert keys + {(Rules, n, "enabled")} == HeadKeys(n);
    var a := RuleState(st, NewRule(), {});
    assert a == st.(section := Rules, rules := st.rules + [NewRule()]);
    var head := RuleHead(r);
    RunFive(st, head[0], head[1], head[2], head[3], head[4], a, RuleState(st, r1, {(Rules, n, "type")}),
        RuleState(st, r2, keys), RuleState(st, HeadRule(r), HeadKeys(n)), json);
  }

  lemma {:induction false} RuleRun(st: State, r: Rule, json: Json) returns (next: State)
    requires Plain(r.payload) && Plain(r.comment) && RowUnseen(st, Rules, |st.rules| + 1)
    ensures Run(st, RuleLines(r), json) == Some(next)
    ensures next == st.(section := Rules, rules := st.rules + [NormalRule(r)], seen := next.seen)
    ensures SeenUpTo(st, next, Rules, |next.rules|)
  {
    hide Step, Clean, Unquoted, KeyName, Plain, Quoted, Pair, Run, RowUnseen;
    var n := |st.rules| + 1;
    HeadRun(st, r, json);
    next := RuleState(st, HeadRule(r), HeadKeys(n));
    if r.comment == "" {
      assert RuleLines(r) == RuleHead(r);
    } else {
      var last := Pair("comment", Quoted(r.comment));
      RowNames();
      RuleValues(r, json);
      RuleKey(st, HeadRule(r), HeadKeys(n), "comment", Quoted(r.comment), r.comment, NormalRule(r), json);
      var c := next;
      next := RuleState(st, NormalRule(r), HeadKeys(n) + {(Rules, n, "comment")});
      RunPast(st, RuleHead(r), [last], json);
      RunOne(c, last, [], next, json);
      RunNothing(next, json);
      assert [last] + [] == [last];
      assert RuleLines(r) == RuleHead(r) + [last];
    }
  }

  lemma {:induction false} RunFive(st: State, l0: string, l1: string, l2: string, l3: string, l4: string, a: State,
        b: State, c: State,
      next: State, json: Json)
    requires Step(st, l0, json) == Some(st) && Step(st, l1, json) == Some(a) && Step(a, l2, json) == Some(b)
    requires Step(b, l3, json) == Some(c) && Step(c, l4, json) == Some(next)
    ensures Run(st, [l0, l1, l2, l3, l4], json) == Some(next)
  {
    hide Step, Run;
    RunFour(st, l0, l1, l2, l3, a, b, c, json);
    RunPast(st, [l0, l1, l2, l3], [l4], json);
    RunOne(c, l4, [], next, json);
    RunNothing(next, json);
    assert [l0, l1, l2, l3] + [l4] == [l0, l1, l2, l3, l4] && [l4] + [] == [l4];
  }

  function NormalRules(list: seq<Rule>): (n: seq<Rule>)
    ensures |n| == |list|
  {
    seq(|list|, i requires 0 <= i < |list| => NormalRule(list[i]))
  }

  lemma {:induction false} RulesRun(st: State, list: seq<Rule>, json: Json) returns (next: State)
    requires st.rules == [] && TableUnseen(st, Rules)
    requires forall i :: 0 <= i < |list| ==> Plain(list[i].payload) && Plain(list[i].comment)
    ensures Run(st, RulesLines(list), json) == Some(next)
    ensures next == st.(section := if list == [] then st.section else Rules, rules := NormalRules(list),
        seen := next.seen)
    ensures SeenUpTo(st, next, Rules, |list|)
    decreases |list|
  {
    hide Step, Plain, RuleLines, Run, NormalRule, SeenUpTo, TableUnseen, RowUnseen;
    if list == [] {
      RunNothing(st, json);
      SeenNothing(st, Rules);
      next := st;
    } else {
      var n := |list| - 1;
      var before := RulesRun(st, list[..n], json);
      RowAfter(st, before, Rules, n);
      next := RuleRun(before, list[n], json);
      SeenFurther(st, before, next, Rules, n);
      RunPast(st, RulesLines(list[..n]), RuleLines(list[n]), json);
      assert NormalRules(list[..n]) + [NormalRule(list[n])] == NormalRules(list);
    }
  }

  // ---------- the settings once read back ----------

  /** Written settings, numbers without leading zeros; everything else has its default. */
  function NormalSettings(s: Settings): Settings {
    Updated(Updated(Updated(Updated(Defaults(), TcpFields(), s), UdpFields(), s), InjectionFields(), s),
        RuntimeFields(), s)
  }

  lemma {:induction false} UpdatedElsewhere(into: Settings, fields: seq<Field>, s: Settings, section: Section, id: Id)
    requires forall i :: 0 <= i < |fields| ==> fields[i].section == section
    requires id.section != section || forall i :: 0 <= i < |fields| ==> fields[i].key != id.key
    ensures id in Updated(into, fields, s) <==> id in into
    ensures id in into ==> Updated(into, fields, s)[id] == into[id]
    decreases |fields|
  {
    hide Print, NormalValue;
    if fields != [] {
      var f := fields[0];
      assert forall i :: 0 <= i < |fields[1..]| ==> fields[1..][i] == fields[i + 1];
      UpdatedElsewhere(if Print(f, s).Write? then into[Id(f.section, f.key) := NormalValue(f, s)]
          else into, fields[1..], s, section, id);
    }
  }

  lemma {:induction false} UpdatedAt(into: Settings, fields: seq<Field>, s: Settings, section: Section, i: nat)
    requires (forall j :: 0 <= j < |fields| ==> fields[j].section == section) && DistinctKeys(fields) && i < |fields|
    ensures Get(Updated(into, fields, s), section, fields[i].key)
         == if Print(fields[i], s).Write? then NormalValue(fields[i], s) else Get(into, section, fields[i].key)
    decreases |fields|
  {
    hide Print, NormalValue;
    var f := fields[0];
    var next := if Print(f, s).Write? then into[Id(f.section, f.key) := NormalValue(f, s)] else into;
    assert forall j :: 0 <= j < |fields[1..]| ==> fields[1..][j] == fields[j + 1];
    if i == 0 {
      UpdatedElsewhere(next, fields[1..], s, section, Id(section, f.key));
    } else {
      UpdatedAt(next, fields[1..], s, section, i - 1);
      assert fields[i].key != f.key;
    }
  }

  lemma {:induction false} InitialElsewhere(into: Settings, fields: seq<Field>, section: Section, id: Id)
    requires forall i :: 0 <= i < |fields| ==> fields[i].section == section
    requires id.section != section || forall i :: 0 <= i < |fields| ==> fields[i].key != id.key
    ensures id in Initial(into, fields) <==> id in into
    ensures id in into ==> Initial(into, fields)[id] == into[id]
    decreases |fields|
  {
    if fields != [] {
      assert forall i :: 0 <= i < |fields[1..]| ==> fields[1..][i] == fields[i + 1];
      InitialElsewhere(into[Id(fields[0].section, fields[0].key) := fields[0].initial], fields[1..], section, id);
    }
  }

  lemma {:induction false} InitialAt(into: Settings, fields: seq<Field>, section: Section, i: nat)
    requires (forall j :: 0 <= j < |fields| ==> fields[j].section == section) && DistinctKeys(fields) && i < |fields|
    ensures Get(Initial(into, fields), section, fields[i].key) == fields[i].initial
    decreases |fields|
  {
    var f := fields[0];
    var next := into[Id(f.section, f.key) := f.initial];
    assert forall j :: 0 <= j < |fields[1..]| ==> fields[1..][j] == fields[j + 1];
    if i == 0 {
      InitialElsewhere(next, fields[1..], section, Id(section, f.key));
    } else {
      InitialAt(next, fields[1..], section, i - 1);
    }
  }

  lemma {:induction false} AllSections()
    ensures DistinctKeys(TcpFields()) && DistinctKeys(UdpFields()) && DistinctKeys(InjectionFields())
        && DistinctKeys(RuntimeFields())
    ensures forall i :: 0 <= i < |TcpFields()| ==> TcpFields()[i].section == Tcp
    ensures forall i :: 0 <= i < |UdpFields()| ==> UdpFields()[i].section == Udp
    ensures forall i :: 0 <= i < |InjectionFields()| ==> InjectionFields()[i].section == Injection
    ensures forall i :: 0 <= i < |RuntimeFields()| ==> RuntimeFields()[i].section == Runtime
  {
    hide TcpFields, UdpFields, InjectionFields, RuntimeFields, DistinctKeys;
    TcpShaped();
    UdpShaped();
    InjectionShaped();
    RuntimeShaped();
    ShapedSection(TcpFields(), Tcp);
    ShapedSection(UdpFields(), Udp);
    ShapedSection(InjectionFields(), Injection);
    ShapedSection(RuntimeFields(), Runtime);
  }

  lemma {:induction false} DefaultAt(section: Section, i: nat)
    requires Settable(section) && i < |FieldsOf(section)|
    ensures Get(Defaults(), section, FieldsOf(section)[i].key) == FieldsOf(section)[i].initial
  {
    hide TcpFields, UdpFields, InjectionFields, RuntimeFields, DistinctKeys, Initial;
    AllSections();
    var id := Id(section, FieldsOf(section)[i].key);
    var a := Initial(map[], TcpFields());
    var b := Initial(a, UdpFields());
    var c := Initial(b, InjectionFields());
    if section == Tcp { InitialAt(map[], TcpFields(), Tcp, i); }
    if section == Udp { InitialAt(a, UdpFields(), Udp, i); } else { InitialElsewhere(a, UdpFields(), Udp, id); }
    if section == Injection {
      InitialAt(b, InjectionFields(), Injection, i);
    } else {
      InitialElsewhere(b, InjectionFields(), Injection, id);
    }
    if section == Runtime {
      InitialAt(c, RuntimeFields(), Runtime, i);
    } else {
      InitialElsewhere(c, RuntimeFields(), Runtime, id);
    }
  }

  lemma {:induction false} NormalAt(s: Settings, section: Section, i: nat)
    requires Settable(section) && i < |FieldsOf(section)|
    ensures var f := FieldsOf(section)[i];
            Get(NormalSettings(s), section, f.key) == if Print(f, s).Write? then NormalValue(f, s) else f.initial
  {
    hide TcpFields, UdpFields, InjectionFields, RuntimeFields, DistinctKeys, Updated, Print, NormalValue, Defaults;
    AllSections();
    DefaultAt(section, i);
    var id := Id(section, FieldsOf(section)[i].key);
    var d := Defaults();
    var a := Updated(d, TcpFields(), s);
    var b := Updated(a, UdpFields(), s);
    var c := Updated(b, InjectionFields(), s);
    if section == Tcp { UpdatedAt(d, TcpFields(), s, Tcp, i); } else { UpdatedElsewhere(d, TcpFields(), s, Tcp, id); }
    if section == Udp { UpdatedAt(a, UdpFields(), s, Udp, i); } else { UpdatedElsewhere(a, UdpFields(), s, Udp, id); }
    if section == Injection {
      UpdatedAt(b, InjectionFields(), s, Injection, i);
    } else {
      UpdatedElsewhere(b, InjectionFields(), s, Injection, id);
    }
    if section == Runtime {
      UpdatedAt(c, RuntimeFields(), s, Runtime, i);
    } else {
      UpdatedElsewhere(c, RuntimeFields(), s, Runtime, id);
    }
  }

  // ---------- printing what was read back ----------

  /** The retired keys are the only ones of the tcp section that hold a payload. */
  lemma {:induction false} TcpUnskipped(i: nat, s: Settings)
    requires i < |TcpFields()| && !TcpFields()[i].retired
    ensures !Skipped(TcpFields()[i], s)
  {
    hide Get;
    var f := TcpFields()[i];
    assert f.key == "enabled" || f.key == "directions" || f.key == "tfo" || f.key == "max_batches";
    hide TcpFields;
    assert f.key[0] != 'p' && f.key[0] != 'h' && f.key[0] != 's';
  }

  lemma {:induction false} UdpPayload(s: Settings)
    requires KeyLines(UdpFields(), s).Some?
    ensures Get(NormalSettings(s), Udp, "payload") == Get(s, Udp, "payload")
        && Get(s, Udp, "payload") in ["sip", "custom"]
    ensures Get(s, Udp, "payload") == "custom" && Get(s, Udp, "payload_file") != "" ==>
              Get(NormalSettings(s), Udp, "payload_file") == Get(s, Udp, "payload_file")
  {
    hide NormalSettings, Get, KeyLines, AllQuotable;
    var (f, g) := (UdpFields()[2], UdpFields()[4]);
    assert f == Field(Udp, "payload", Choice(["sip", "custom"]), "sip", false)
        && g == Field(Udp, "payload_file", Line, "", false);
    hide UdpFields;
    NoneBad(UdpFields(), s, 2);
    NoneBad(UdpFields(), s, 4);
    NormalAt(s, Udp, 2);
    NormalAt(s, Udp, 4);
    assert "payload" != "payload_file" && "payload" != "hostname" && "payload" != "sip_uri";
    assert !Skipped(f, s);
    assert Print(f, s).Write?;
  }

  lemma {:induction false} NoneBad(fields: seq<Field>, s: Settings, i: nat)
    requires KeyLines(fields, s).Some? && i < |fields|
    ensures Print(fields[i], s) != Bad
    decreases |fields|
  {
    hide Print;
    if i > 0 { NoneBad(fields[1..], s, i - 1); }
  }

  lemma {:induction false} SameSkipped(section: Section, i: nat, s: Settings)
    requires Settable(section) && KeyLines(UdpFields(), s).Some?
    requires i < |FieldsOf(section)| && !FieldsOf(section)[i].retired
    ensures Skipped(FieldsOf(section)[i], NormalSettings(s)) == Skipped(FieldsOf(section)[i], s)
  {
    hide NormalSettings, TcpFields, UdpFields, InjectionFields, RuntimeFields, Get, KeyLines;
    AllSections();
    UdpPayload(s);
    if section == Tcp {
      TcpUnskipped(i, s);
      TcpUnskipped(i, NormalSettings(s));
    }
  }

  /** A setting that is not bad prints the same after it was read back. */
  lemma {:induction false} PrintNormal(section: Section, i: nat, s: Settings)
    requires Settable(section) && KeyLines(UdpFields(), s).Some? && i < |FieldsOf(section)|
    requires Print(FieldsOf(section)[i], s) != Bad
    ensures Print(FieldsOf(section)[i], NormalSettings(s)) == Print(FieldsOf(section)[i], s)
  {
    hide NormalSettings, KeyLines, FieldsOf, AllQuotable, Skipped;
    var f := FieldsOf(section)[i];
    NormalAt(s, section, i);
    AllKnown(section);
    assert f.section == section by { KnownSection(section, i); }
    hide Known, Shaped;
    if !f.retired {
      SameSkipped(section, i, s);
    }
  }

  lemma KnownSection(section: Section, i: nat)
    requires Settable(section) && i < |FieldsOf(section)| && Known(FieldsOf(section), section)
    ensures FieldsOf(section)[i].section == section
  {
  }

  lemma {:induction false} KeyLinesSame(fields: seq<Field>, s: Settings, s': Settings)
    requires forall i :: 0 <= i < |fields| ==> Print(fields[i], s') == Print(fields[i], s)
    ensures KeyLines(fields, s') == KeyLines(fields, s)
    decreases |fields|
  {
    hide Print;
    if fields != [] {
      assert forall i :: 0 <= i < |fields[1..]| ==> fields[1..][i] == fields[i + 1];
      KeyLinesSame(fields[1..], s, s');
    }
  }

  lemma {:induction false} SectionSame(section: Section, s: Settings)
    requires Settable(section) && KeyLines(UdpFields(), s).Some? && KeyLines(FieldsOf(section), s).Some?
    ensures KeyLines(FieldsOf(section), NormalSettings(s)) == KeyLines(FieldsOf(section), s)
  {
    hide Print, NormalSettings, KeyLines, FieldsOf, UdpFields;
    var fields := FieldsOf(section);
    forall i | 0 <= i < |fields| ensures Print(fields[i], NormalSettings(s)) == Print(fields[i], s) {
      NoneBad(fields, s, i);
      PrintNormal(section, i, s);
    }
    KeyLinesSame(fields, s, NormalSettings(s));
  }

  lemma {:induction false} InjectionNormal(s: Settings, i: nat)
    requires KeyLines(InjectionFields(), s).Some? && i < 7 && InjectionFields()[i].kind.Number?
    ensures var key := InjectionFields()[i].key;
            AllDigits(Get(s, Injection, key)) && AllDigits(Get(NormalSettings(s), Injection, key))
            && ToNat(Get(NormalSettings(s), Injection, key)) == ToNat(Get(s, Injection, key))
  {
    hide NormalSettings, KeyLines, Get, Skipped;
    var f := InjectionFields()[i];
    assert f.section == Injection && !f.retired;
    hide InjectionFields;
    NoneBad(InjectionFields(), s, i);
    NormalAt(s, Injection, i);
    assert !Skipped(f, s) by { InjectionUnskipped(f, s); }
    assert Print(f, s).Write?;
  }

  lemma InjectionUnskipped(f: Field, s: Settings)
    requires f.section == Injection
    ensures !Skipped(f, s)
  {
  }

  lemma {:induction false} CombinedNormal(s: Settings)
    requires Combined(s) && KeyLines(InjectionFields(), s).Some? && KeyLines(UdpFields(), s).Some?
    ensures Combined(NormalSettings(s))
  {
    hide NormalSettings, KeyLines, Get, Print, UdpFields, AllDigits, ToNat;
    assert InjectionFields()[5].key == "burst" && InjectionFields()[1].key == "repeat";
    assert InjectionFields()[5].kind.Number? && InjectionFields()[1].kind.Number?;
    assert TcpFields()[2] == Field(Tcp, "payload", Choice(["http", "tls", "custom"]), "http", true);
    assert TcpFields()[5] == Field(Tcp, "https_hostname", Line, "", true);
    hide InjectionFields, TcpFields;
    InjectionNormal(s, 5);
    InjectionNormal(s, 1);
    UdpPayload(s);
    NormalAt(s, Tcp, 2);
    NormalAt(s, Tcp, 5);
    RetiredOmitted(TcpFields()[2], s);
    RetiredOmitted(TcpFields()[5], s);
    assert "http" != "custom";
  }

  lemma RetiredOmitted(f: Field, s: Settings)
    requires f.retired
    ensures Print(f, s) == Omit
  {
  }

  /** The model once read back. */
  function Normal(m: Model): Model {
    Model(NormalSettings(m.settings), m.interfaces, NormalRules(m.rules))
  }

  /** Everything the text quotes can be read back from between the quotes. */
  predicate PlainModel(m: Model) {
    && (forall i :: 0 <= i < |m.rules| ==> Plain(m.rules[i].payload) && Plain(m.rules[i].comment))
    && PlainFields(TcpFields(), m.settings) && PlainFields(UdpFields(), m.settings)
    && PlainFields(InjectionFields(), m.settings) && PlainFields(RuntimeFields(), m.settings)
  }

  lemma {:induction false} OneRuleNormal(r: Rule)
    ensures RuleLines(NormalRule(r)) == RuleLines(r)
    ensures RuleOk(r) ==> RuleOk(NormalRule(r))
  {
    hide AllQuotable, Quoted, Pair;
    assert TypeOf(NormalRule(r)) == TypeOf(r);
  }

  lemma {:induction false} RuleLinesNormal(list: seq<Rule>)
    ensures RulesLines(NormalRules(list)) == RulesLines(list)
    decreases |list|
  {
    hide RuleLines, NormalRule;
    if list == [] {
      assert NormalRules(list) == [];
    } else {
      var n := |list| - 1;
      RuleLinesNormal(list[..n]);
      assert NormalRules(list)[..n] == NormalRules(list[..n]);
      OneRuleNormal(list[n]);
    }
  }

  lemma {:induction false} RulesOkNormal(list: seq<Rule>)
    requires RulesOk(list)
    ensures RulesOk(NormalRules(list))
  {
    hide RuleOk;
    forall i | 0 <= i < |list| ensures RuleOk(NormalRules(list)[i]) { OneRuleNormal(list[i]); }
    var i :| 0 <= i < |list| && list[i].enabled == "1";
    assert NormalRules(list)[i].enabled == "1";
  }

  /** Serializing the model that was read back gives the same text. */
  lemma {:induction false} SerializedNormal(m: Model)
    requires Serialized(m).Some?
    ensures Serialized(Normal(m)) == Serialized(m)
  {
    hide KeyLines, NormalSettings, NormalRules, RulesOk, InterfacesOk, Combined, TcpFields, UdpFields,
        InjectionFields, RuntimeFields, Joined;
    RuleLinesNormal(m.rules);
    RulesOkNormal(m.rules);
    assert Settable(Tcp) && Settable(Udp) && Settable(Injection) && Settable(Runtime);
    SectionSame(Tcp, m.settings);
    SectionSame(Udp, m.settings);
    SectionSame(Injection, m.settings);
    SectionSame(Runtime, m.settings);
    CombinedNormal(m.settings);
  }

  // ---------- lines ----------

  predicate LineOk(line: string) { forall k :: 0 <= k < |line| ==> line[k] != '\n' && line[k] != '\r' }

  predicate LinesOk(lines: seq<string>) { forall i :: 0 <= i < |lines| ==> LineOk(lines[i]) }

  lemma {:induction false} SplitLine(line: string, rest: string, n: nat)
    requires LineOk(line) && n <= |line|
    ensures SplitFrom(line + "\n" + rest, n) == [line] + SplitFrom(rest, 0)
    decreases |line| - n
  {
    var text := line + "\n" + rest;
    if n < |line| {
      assert text[n] == line[n];
      SplitLine(line, rest, n + 1);
    } else {
      assert text[n] == '\n' && text[..n] == line && text[n + 1..] == rest;
    }
  }

  lemma {:induction false} SplitJoined(lines: seq<string>)
    requires LinesOk(lines)
    ensures Split(Joined(lines)) == lines + [""]
  {
    hide LineOk;
    if lines == [] {
      SplitEmpty();
    } else {
      var more := lines[1..];
      assert forall i :: 0 <= i < |more| ==> more[i] == lines[i + 1];
      SplitJoined(more);
      SplitLine(lines[0], Joined(more), 0);
      assert lines == [lines[0]] + more;
    }
  }

  lemma SplitEmpty()
    ensures Split("") == [""]
  {
  }

  lemma {:induction false} PairOk(key: string, value: string)
    requires KeyName(key) && (Clean(value) || LineOk(value))
    ensures LineOk(Pair(key, value))
  {
  }

  lemma {:induction false} QuotedOk(s: string)
    requires Plain(s)
    ensures LineOk(Quoted(s))
  {
  }

  lemma {:induction false} InterfaceLinesOk(list: seq<Interface>)
    requires forall i :: 0 <= i < |list| ==> Plain(list[i].name) && Plain(list[i].mode)
    ensures LinesOk(InterfaceLines(list))
    decreases |list|
  {
    hide Plain, Quoted, Pair, KeyName, LineOk, Clean;
    if list != [] {
      var n := |list| - 1;
      InterfaceLinesOk(list[..n]);
      RowNames();
      QuotedOk(list[n].name);
      QuotedOk(list[n].mode);
      PairOk("name", Quoted(list[n].name));
      PairOk("mode", Quoted(list[n].mode));
      HeadersOk();
    }
  }

  lemma HeadersOk()
    ensures LineOk("") && LineOk("[[interfaces]]") && LineOk("[[tcp.rule]]") && LineOk("version = 1")
    ensures LineOk("[" + "tcp" + "]") && LineOk("[" + "udp" + "]") && LineOk("[" + "injection" + "]")
        && LineOk("[" + "runtime" + "]")
    ensures LineOk("true") && LineOk("false")
  {
  }

  lemma {:induction false} RuleLinesOk(r: Rule)
    requires Plain(r.payload) && Plain(r.comment)
    ensures LinesOk(RuleLines(r))
  {
    hide Plain, Quoted, Pair, KeyName, LineOk, Clean;
    RowNames();
    TypePlain(r);
    QuotedOk(TypeOf(r));
    QuotedOk(r.payload);
    QuotedOk(r.comment);
    PairOk("type", Quoted(TypeOf(r)));
    PairOk("payload", Quoted(r.payload));
    PairOk("comment", Quoted(r.comment));
    HeadersOk();
    PairOk("enabled", if r.enabled == "1" then "true" else "false");
  }

  lemma {:induction false} RulesLinesOk(list: seq<Rule>)
    requires forall i :: 0 <= i < |list| ==> Plain(list[i].payload) && Plain(list[i].comment)
    ensures LinesOk(RulesLines(list))
    decreases |list|
  {
    hide Plain, RuleLines, LineOk;
    if list != [] {
      RulesLinesOk(list[..|list| - 1]);
      RuleLinesOk(list[|list| - 1]);
    }
  }

  lemma {:induction false} KeyLinesOk(fields: seq<Field>, section: Section, s: Settings, json: Json)
    requires Shaped(fields, section) && PlainFields(fields, s) && KeyLines(fields, s).Some? && ReadsWords(json)
    ensures LinesOk(KeyLines(fields, s).value)
    decreases |fields|
  {
    hide Print, Plain, LineOk, Pair, KeyName, PlainChoices, Clean;
    if fields != [] {
      var f := fields[0];
      assert forall i :: 0 <= i < |fields[1..]| ==> fields[1..][i] == fields[i + 1];
      KeyLinesOk(fields[1..], section, s, json);
      assert ShapedField(f, section);
      if Print(f, s).Write? {
        WrittenReads(f, s, json);
        PairOk(f.key, Print(f, s).text);
      }
    }
  }

  lemma {:induction false} SectionLinesOk(section: Section, s: Settings, json: Json)
    requires Settable(section) && PlainFields(FieldsOf(section), s) && ReadsWords(json)
    requires SectionLines(section, HeaderName(section), s).Some?
    ensures LinesOk(SectionLines(section, HeaderName(section), s).value)
  {
    hide FieldsOf, KeyLines, LineOk;
    AllKnown(section);
    KeyLinesOk(FieldsOf(section), section, s, json);
    HeadersOk();
  }

  lemma {:induction false} AllLinesOk(m: Model, json: Json)
    requires AllLines(m).Some? && PlainModel(m) && ReadsWords(json)
    ensures LinesOk(AllLines(m).value)
  {
    hide KeyLines, LineOk, RulesLines, InterfaceLines, RulesOk, Combined, TcpFields, UdpFields, InjectionFields,
        RuntimeFields, Plain, SectionLines, PlainFields;
    assert Settable(Tcp) && Settable(Udp) && Settable(Injection) && Settable(Runtime);
    SectionLinesOk(Tcp, m.settings, json);
    SectionLinesOk(Udp, m.settings, json);
    SectionLinesOk(Injection, m.settings, json);
    SectionLinesOk(Runtime, m.settings, json);
    RulesLinesOk(m.rules);
    InterfacesPlain(m.interfaces);
    InterfaceLinesOk(m.interfaces);
    HeadersOk();
  }

  lemma InterfacesPlain(list: seq<Interface>)
    requires InterfacesOk(list)
    ensures forall i :: 0 <= i < |list| ==> Plain(list[i].name) && Plain(list[i].mode)
  {
    hide Plain;
    forall i | 0 <= i < |list| ensures Plain(list[i].name) && Plain(list[i].mode) {
      NamePlain(list[i].name);
      ModePlain(list[i].mode);
    }
  }

  // ---------- the round trip ----------

  lemma {:induction false} VersionRun(json: Json) returns (next: State)
    ensures Step(Start(), "version = 1", json) == Some(next)
    ensures next == Start().(version := true, seen := {(Top, 0, "version")})
  {
    hide Defaults, Strip, Match, Trim;
    assert KeyName("version");
    DigitsClean("1");
    assert Pair("version", "1") == "version = 1";
    StepKey(Start(), "version", "1", json);
    next := Start().(version := true, seen := {(Top, 0, "version")});
    assert {} + {(Top, 0, "version")} == {(Top, 0, "version")};
  }

  /** Version, interfaces, the tcp section and its rules. */
  lemma {:induction false} FirstRun(m: Model, json: Json) returns (end: State)
    requires AllLines(m).Some? && PlainModel(m) && ReadsWords(json)
    ensures Run(Start(), ["version = 1"] + InterfaceLines(m.interfaces) + SectionLines(Tcp, "tcp", m.settings).value
        + RulesLines(m.rules), json)
         == Some(end)
    ensures end == State(Updated(Defaults(), TcpFields(), m.settings), m.interfaces, NormalRules(m.rules), Rules,
        end.seen, {Tcp}, true)
    ensures forall id :: id in end.seen ==> id.0 in {Top, Interfaces, Tcp, Rules}
  {
    hide Step, Run, KeyLines, RulesLines, InterfaceLines, RulesOk, Combined, TcpFields, UdpFields, InjectionFields,
        RuntimeFields, Plain;
    hide SectionLines, PlainFields, Updated, Defaults, Initial;
    var s := m.settings;
    var a := VersionRun(json);
    InterfacesPlain(m.interfaces);
    var b := InterfacesRun(a, m.interfaces, json);
    var c := SectionRun(b, Tcp, s, json);
    end := RulesRun(c, m.rules, json);
    SomeRulesOk(m.rules);
    RunOne(Start(), "version = 1", InterfaceLines(m.interfaces), a, json);
    RunPast(Start(), ["version = 1"] + InterfaceLines(m.interfaces), SectionLines(Tcp, "tcp", s).value, json);
    RunPast(Start(), ["version = 1"] + InterfaceLines(m.interfaces) + SectionLines(Tcp, "tcp", s).value,
        RulesLines(m.rules), json);
  }

  lemma SomeRulesOk(list: seq<Rule>)
    requires RulesOk(list)
    ensures list != []
  {
  }

  /** Everything the printer writes, read line by line. */
  lemma {:induction false} AllRun(m: Model, json: Json) returns (end: State)
    requires AllLines(m).Some? && PlainModel(m) && ReadsWords(json)
    ensures Run(Start(), AllLines(m).value + [""], json) == Some(end)
    ensures end.version && end.settings == NormalSettings(m.settings) && end.interfaces == m.interfaces
        && end.rules == NormalRules(m.rules)
  {
    hide Step, Run, KeyLines, RulesLines, InterfaceLines, RulesOk, Combined, TcpFields, UdpFields, InjectionFields,
        RuntimeFields, Plain;
    hide SectionLines, PlainFields, Updated, Defaults, Initial, Start, NormalRules;
    var s := m.settings;
    var d := FirstRun(m, json);
    var e := SectionRun(d, Udp, s, json);
    var f := SectionRun(e, Injection, s, json);
    end := SectionRun(f, Runtime, s, json);
    StepBlank(end, json);
    var head := ["version = 1"] + InterfaceLines(m.interfaces) + SectionLines(Tcp, "tcp", s).value
        + RulesLines(m.rules);
    var (l4, l5, l6) := (SectionLines(Udp, "udp", s).value, SectionLines(Injection, "injection", s).value,
        SectionLines(Runtime, "runtime", s).value);
    RunPast(Start(), head, l4, json);
    RunPast(Start(), head + l4, l5, json);
    RunPast(Start(), head + l4 + l5, l6, json);
    RunOne(end, "", [], end, json);
    RunNothing(end, json);
    RunPast(Start(), AllLines(m).value, [""], json);
    assert [""] + [] == [""];
  }

  /** A plain model is read back as it was, but for the spelling of its numbers. */
  lemma {:induction false} ReadBack(m: Model, json: Json)
    requires Serialized(m).Some? && PlainModel(m) && ReadsWords(json)
    ensures Parsed(Serialized(m).value, json) == Some(Normal(m))
  {
    hide AllLines, Run, PlainModel, NormalSettings, NormalRules, Split, Joined, Start;
    var end := AllRun(m, json);
    AllLinesOk(m, json);
    SplitJoined(AllLines(m).value);
    SerializedNormal(m);
    SomeRules(m);
  }

  lemma SomeRules(m: Model)
    requires Serialized(m).Some?
    ensures m.interfaces != [] && NormalRules(m.rules) != []
  {
    hide SectionLines, Combined;
  }

  // ---------- what the parser can return at all ----------

  ghost predicate PlainSettings(s: Settings) {
    forall section: Section, i: nat ::
      Settable(section) && i < |FieldsOf(section)| && FieldsOf(section)[i].kind == Line ==>
        Plain(Get(s, section, FieldsOf(section)[i].key))
  }

  predicate PlainRules(list: seq<Rule>) {
    forall i :: 0 <= i < |list| ==> Plain(list[i].payload) && Plain(list[i].comment)
  }

  ghost predicate PlainState(st: State) { PlainSettings(st.settings) && PlainRules(st.rules) }

  lemma {:induction false} MatchedPlain(line: string, key: string, value: string)
    requires Match(line) == Some((key, value)) && Unquoted(value).Some?
    ensures Plain(Unquoted(value).value)
  {
    hide TrimStart, KeyRun, Quotable, EndsLine;
    var t := Unquoted(value).value;
    forall k | 0 <= k < |t| ensures Quotable(t[k]) && !EndsLine(t[k]) {
      assert t[k] == value[k + 1];
    }
  }

  lemma {:induction false} StorePlain(st: State, key: string, v: string)
    requires PlainState(st) && KindOf(st.section, key).Some? && (KindOf(st.section, key) == Some(Line) ==> Plain(v))
    ensures PlainState(Store(st, key, v))
  {
    hide Plain, FieldsOf;
    if st.section == Rules {
      if key != "enabled" && key != "type" { RuleKinds(key); }
    } else if Settable(st.section) {
      var after := st.settings[Id(st.section, key) := v];
      forall section: Section, i: nat
        | Settable(section) && i < |FieldsOf(section)| && FieldsOf(section)[i].kind == Line
        ensures Plain(Get(after, section, FieldsOf(section)[i].key))
      {
        assert Plain(Get(st.settings, section, FieldsOf(section)[i].key));
        if section == st.section && FieldsOf(section)[i].key == key { KindAt(section, i); }
      }
    }
  }

  lemma RuleKinds(key: string)
    requires KindOf(Rules, key).Some? && key != "enabled" && key != "type"
    ensures KindOf(Rules, key) == Some(Line)
  {
  }

  lemma {:induction false} KindAt(section: Section, i: nat)
    requires Settable(section) && i < |FieldsOf(section)|
    ensures KindOf(section, FieldsOf(section)[i].key) == Some(FieldsOf(section)[i].kind)
  {
    hide FieldsOf, Lookup, ShapedField;
    AllKnown(section);
    assert KnownField(FieldsOf(section)[i], section);
  }

  lemma {:induction false} AssignPlain(st: State, key: string, value: string, json: Json)
    requires PlainState(st) && Assign(st, key, value, json).Some?
    requires Unquoted(value).Some? ==> Plain(Unquoted(value).value)
    ensures PlainState(Assign(st, key, value, json).value)
  {
    hide PlainSettings, PlainRules, Plain, Store, KindOf, Unquoted, Repeat;
    var noted := st.(seen := st.seen + {(st.section, Repeat(st), key)});
    if !(st.section == Top && key == "version" && value == "1") {
      var kind := KindOf(st.section, key).value;
      StorePlain(noted, key, Value(kind, value, json).value);
    }
  }

  lemma {:induction false} StepPlain(st: State, raw: string, json: Json)
    requires PlainState(st) && Step(st, raw, json).Some?
    ensures PlainState(Step(st, raw, json).value)
  {
    hide PlainSettings, Plain, Strip, Trim, Match, Assign, Unquoted;
    var line := Trim(Strip(raw, false));
    if line == "" || line == "[[interfaces]]" || HeaderOf(line).Some? {
    } else if line == "[[tcp.rule]]" {
      EmptyPlain();
    } else {
      var (key, value) := Match(line).value;
      if Unquoted(value).Some? { MatchedPlain(line, key, value); }
      AssignPlain(st, key, value, json);
    }
  }

  lemma EmptyPlain()
    ensures Plain("")
  {
  }

  lemma {:induction false} RunPlain(st: State, lines: seq<string>, json: Json)
    requires PlainState(st) && Run(st, lines, json).Some?
    ensures PlainState(Run(st, lines, json).value)
    decreases |lines|
  {
    hide Step, PlainState;
    if lines != [] {
      StepPlain(st, lines[0], json);
      RunPlain(Step(st, lines[0], json).value, lines[1..], json);
    }
  }

  lemma {:induction false} LineDefaultsPlain(section: Section, i: nat)
    requires Settable(section) && i < |FieldsOf(section)| && FieldsOf(section)[i].kind == Line
    ensures Plain(FieldsOf(section)[i].initial)
  {
    hide Plain;
    var v := FieldsOf(section)[i].initial;
    assert v == "" || v == "www.example.com" || v == "sip:service@example.com";
    hide FieldsOf, TcpFields, UdpFields, InjectionFields, RuntimeFields;
    DefaultsPlain();
  }

  lemma DefaultsPlain()
    ensures Plain("") && Plain("www.example.com") && Plain("sip:service@example.com")
  {
  }

  lemma {:induction false} StartPlain()
    ensures PlainState(Start())
  {
    hide Plain, FieldsOf, Defaults;
    forall section: Section, i: nat | Settable(section) && i < |FieldsOf(section)| && FieldsOf(section)[i].kind == Line
      ensures Plain(Get(Defaults(), section, FieldsOf(section)[i].key))
    {
      DefaultAt(section, i);
      LineDefaultsPlain(section, i);
    }
  }

  lemma {:induction false} MigratedPlain(s: Settings)
    requires PlainSettings(s)
    ensures PlainRules(Migrated(s))
  {
    hide Plain, Get;
    EmptyPlain();
    assert FieldsOf(Tcp)[3].kind == FieldsOf(Tcp)[4].kind == FieldsOf(Tcp)[5].kind == FieldsOf(Tcp)[6].kind == Line;
    assert FieldsOf(Tcp)[3].key == "hostname" && FieldsOf(Tcp)[4].key == "payload_file";
    assert FieldsOf(Tcp)[5].key == "https_hostname" && FieldsOf(Tcp)[6].key == "https_payload_file";
    assert Settable(Tcp) && |FieldsOf(Tcp)| == 10;
    hide FieldsOf, TcpFields;
  }

  /** Whatever text it reads, the parser returns nothing but plain strings. */
  lemma {:induction false} ParsedPlain(text: string, json: Json)
    requires Parsed(text, json).Some?
    ensures PlainSettings(Parsed(text, json).value.settings) && PlainRules(Parsed(text, json).value.rules)
  {
    hide Run, Split, Serialized, PlainSettings, PlainRules, Migrated, Start;
    StartPlain();
    RunPlain(Start(), Split(text), json);
    MigratedPlain(Run(Start(), Split(text), json).value.settings);
  }

  lemma {:induction false} WrittenPlain(section: Section, s: Settings)
    requires Settable(section) && PlainSettings(NormalSettings(s))
    ensures PlainFields(FieldsOf(section), s)
  {
    hide Print, NormalSettings, Plain, FieldsOf, Get;
    var fields := FieldsOf(section);
    AllKnown(section);
    ShapedSection(fields, section);
    forall i | 0 <= i < |fields| && fields[i].kind == Line && Print(fields[i], s).Write?
      ensures Plain(Get(s, fields[i].section, fields[i].key))
    {
      NormalAt(s, section, i);
      assert Plain(Get(NormalSettings(s), section, fields[i].key));
    }
  }

  /**
   What the printer accepts comes back from the parser unchanged, but for leading zeros of numbers,
   exactly if everything the text quotes is plain.
   */
  lemma {:induction false} RoundTrip(m: Model, json: Json)
    requires Serialized(m).Some? && ReadsWords(json)
    ensures Parsed(Serialized(m).value, json) == Some(Normal(m)) <==> PlainModel(m)
    ensures PlainModel(m) ==> Serialized(Parsed(Serialized(m).value, json).value) == Serialized(m)
  {
    hide Serialized, Parsed, NormalSettings, Plain, PlainSettings, PlainFields, TcpFields, UdpFields, InjectionFields,
        RuntimeFields;
    if PlainModel(m) {
      ReadBack(m, json);
      SerializedNormal(m);
    }
    if Parsed(Serialized(m).value, json) == Some(Normal(m)) {
      ParsedPlain(Serialized(m).value, json);
      assert Settable(Tcp) && Settable(Udp) && Settable(Injection) && Settable(Runtime);
      WrittenPlain(Tcp, m.settings);
      WrittenPlain(Udp, m.settings);
      WrittenPlain(Injection, m.settings);
      WrittenPlain(Runtime, m.settings);
      forall i | 0 <= i < |m.rules| ensures Plain(m.rules[i].payload) && Plain(m.rules[i].comment) {
        assert NormalRules(m.rules)[i] == NormalRule(m.rules[i]);
      }
    }
  }

  /**
   The path of a custom payload goes into the text unchecked: with a quote at its end an accepted
   model stays accepted, but it is not what the parser returns.
   */
  lemma {:induction false} QuoteInPath(m: Model, i: nat, json: Json)
    requires Serialized(m).Some? && i < |m.rules| && TypeOf(m.rules[i]) == "custom" && ReadsWords(json)
    ensures var n := m.(rules := m.rules[i := m.rules[i].(payload := m.rules[i].payload + "\"")]);
            Serialized(n).Some? && Parsed(Serialized(n).value, json) != Some(Normal(n))
  {
    hide Normal, Parsed, SectionLines, Combined, InterfacesOk, Joined, RulesLines, InterfaceLines, PlainFields;
    var r := m.rules[i].(payload := m.rules[i].payload + "\"");
    var n := m.(rules := m.rules[i := r]);
    assert RuleOk(r) by { assert RuleOk(m.rules[i]); }
    RulesStayOk(m.rules, i, r);
    assert r.payload[|r.payload| - 1] == '"';
    assert !Quotable('"') && n.rules[i] == r;
    assert !PlainModel(n);
    assert Serialized(n).Some?;
    RoundTrip(n, json);
  }

  lemma RulesStayOk(list: seq<Rule>, i: nat, r: Rule)
    requires RulesOk(list) && i < |list| && RuleOk(r) && r.enabled == list[i].enabled
    ensures RulesOk(list[i := r])
  {
    hide RuleOk;
    var k :| 0 <= k < |list| && list[k].enabled == "1";
    assert list[i := r][k].enabled == "1";
  }
}
