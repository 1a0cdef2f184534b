/**
 The configuration text the web interface reads and writes: a printer (`serialize`) and a parser
 (`parse`) for a subset of TOML (packaging/luci/htdocs/luci-static/resources/fakeflow/config.js:5-37,
 77-291). Every refusal is None; which message it carries is not kept.

 The values of the form are strings. `JSON.parse` is a parameter: what it makes of a text, if that
 is an array.
 */
module ConfigText {
  import opened Common

  // ---------- the model ----------

  datatype Section = Top | Interfaces | Rules | Tcp | Udp | Injection | Runtime

  datatype Kind = Flag | Number(lo: nat, hi: nat) | Choice(options: seq<string>) | Line | Directions | Ports

  datatype Field = Field(section: Section, key: string, kind: Kind, initial: string, retired: bool)

  datatype Id = Id(section: Section, key: string)

  type Settings = map<Id, string>

  datatype Interface = Interface(name: string, mode: string)

  datatype Rule = Rule(enabled: string, kind: string, payload: string, comment: string)

  datatype Model = Model(settings: Settings, interfaces: seq<Interface>, rules: seq<Rule>)

  function TcpFields(): seq<Field> {
    [Field(Tcp, "enabled", Flag, "1", false), Field(Tcp, "directions", Directions, "both", false),
     Field(Tcp, "payload", Choice(["http", "tls", "custom"]), "http", true),
     Field(Tcp, "hostname", Line, "www.example.com", true), Field(Tcp, "payload_file", Line, "", true),
     Field(Tcp, "https_hostname", Line, "", true), Field(Tcp, "https_payload_file", Line, "", true),
     Field(Tcp, "https_ports", Ports, "", true),
     Field(Tcp, "tfo", Choice(["strip-syn", "preserve"]), "strip-syn", false),
     Field(Tcp, "max_batches", Number(1, 32), "3", false)]
  }

  function UdpFields(): seq<Field> {
    [Field(Udp, "enabled", Flag, "1", false), Field(Udp, "trigger", Choice(["egress", "both"]), "egress", false),
     Field(Udp, "payload", Choice(["sip", "custom"]), "sip", false),
     Field(Udp, "sip_uri", Line, "sip:service@example.com", false), Field(Udp, "payload_file", Line, "", false),
     Field(Udp, "initial_packets", Number(1, 32), "5", false),
     Field(Udp, "idle_timeout_seconds", Number(1, 3600), "30", false)]
  }

  function InjectionFields(): seq<Field> {
    [Field(Injection, "ttl", Number(1, 255), "3", false), Field(Injection, "repeat", Number(1, 8), "2", false),
     Field(Injection, "estimate_hops", Flag, "1", false),
     Field(Injection, "dynamic_percent", Number(0, 99), "0", false),
     Field(Injection, "max_packets_per_second", Number(1, 1000000), "1000", false),
     Field(Injection, "burst", Number(1, 1000000), "2000", false), Field(Injection, "allow_private", Flag, "0", false)]
  }

  function RuntimeFields(): seq<Field> {
    [Field(Runtime, "tcp_entries", Number(64, 1048576), "8192", false),
     Field(Runtime, "udp_entries", Number(64, 1048576), "8192", false),
     Field(Runtime, "lease_seconds", Number(4, 60), "10", false)]
  }

  function FieldsOf(section: Section): seq<Field> {
    match section
    case Tcp => TcpFields()
    case Udp => UdpFields()
    case Injection => InjectionFields()
    case Runtime => RuntimeFields()
    case _ => []
  }

  function Lookup(fields: seq<Field>, key: string): Option<Field> {
    if fields == [] then None else if fields[0].key == key then Some(fields[0]) else Lookup(fields[1..], key)
  }

  function Initial(into: Settings, fields: seq<Field>): Settings
    decreases |fields|
  {
    if fields == [] then into else Initial(into[Id(fields[0].section, fields[0].key) := fields[0].initial], fields[1..])
  }

  function Defaults(): Settings {
    Initial(Initial(Initial(Initial(map[], TcpFields()), UdpFields()), InjectionFields()), RuntimeFields())
  }

  function NewRule(): Rule { Rule("1", "http", "", "") }

  // ---------- characters ----------

  /** White space as JavaScript has it. */
  predicate IsSpace(c: char) {
    c == ' ' || 9 <= c as int <= 13 || c as int in {0xA0, 0x1680, 0x2028, 0x2029, 0x202F, 0x205F, 0x3000, 0xFEFF}
    || 0x2000 <= c as int <= 0x200A
  }

  /** Characters the dot of a pattern does not match. */
  predicate EndsLine(c: char) { c as int == 10 || c as int == 13 || c as int == 0x2028 || c as int == 0x2029 }

  /** What may stand between quotes. */
  predicate Quotable(c: char) { c != '"' && c != '\\' && c as int >= 32 }

  predicate AllQuotable(s: string) { forall k :: 0 <= k < |s| ==> Quotable(s[k]) }

  /** What the parser reads back as it stands. */
  predicate Plain(s: string) { forall k :: 0 <= k < |s| ==> Quotable(s[k]) && !EndsLine(s[k]) }

  function Quoted(s: string): string { "\"" + s + "\"" }

  function Pair(key: string, value: string): string { key + " = " + value }

  // ---------- printing ----------

  datatype Out = Write(text: string) | Omit | Bad

  /** A setting that is missing is undefined, which no accepted value is. */
  function Get(s: Settings, section: Section, key: string): string {
    if Id(section, key) in s then s[Id(section, key)] else ""
  }

  predicate InRange(v: string, lo: nat, hi: nat) { AllDigits(v) && lo <= ToNat(v) <= hi }

  /** The source of the payload decides which of its keys belong in the text. */
  predicate Skipped(f: Field, s: Settings) {
    (f.section == Tcp || f.section == Udp) &&
    ((f.key == "payload_file" && Get(s, f.section, "payload") != "custom")
     || ((f.key == "hostname" || f.key == "sip_uri") && Get(s, f.section, "payload") == "custom"))
  }

  function Print(f: Field, s: Settings): Out {
    var v := Get(s, f.section, f.key);
    if f.retired || Skipped(f, s) then Omit
    else
      match f.kind
      case Flag => if v == "1" then Write("true") else if v == "0" then Write("false") else Bad
      case Number(lo, hi) => if InRange(v, lo, hi) then Write(Decimal(ToNat(v))) else Bad
      case Directions =>
        if v == "both" then Write("[\"active\", \"passive\"]")
        else if v == "active" || v == "passive" then Write("[" + Quoted(v) + "]")
        else Bad
      case Choice(options) => if v in options && AllQuotable(v) then Write(Quoted(v)) else Bad
      case Line =>
        if v == "" then (if f.initial != "" then Bad else Omit)
        else if AllQuotable(v) then Write(Quoted(v))
        else Bad
      case Ports => Bad
  }

  function KeyLines(fields: seq<Field>, s: Settings): Option<seq<string>> {
    if fields == [] then Some([])
    else
      match KeyLines(fields[1..], s)
      case None => None
      case Some(more) =>
        match Print(fields[0], s)
        case Bad => None
        case Omit => Some(more)
        case Write(text) => Some([Pair(fields[0].key, text)] + more)
  }

  function SectionLines(section: Section, name: string, s: Settings): Option<seq<string>> {
    match KeyLines(FieldsOf(section), s)
    case None => None
    case Some(lines) => Some(["", "[" + name + "]"] + lines)
  }

  predicate NameChar(c: char) {
    'A' <= c <= 'Z' || 'a' <= c <= 'z' || IsDigit(c) || c == '_' || c == '.' || c == ':' || c == '-'
  }

  predicate ValidName(s: string) { 1 <= |s| <= 15 && forall k :: 0 <= k < |s| ==> NameChar(s[k]) }

  function Modes(): seq<string> { ["ethernet", "pppoe", "l3"] }

  predicate InterfacesOk(list: seq<Interface>) {
    && 1 <= |list| <= 8
    && (forall i :: 0 <= i < |list| ==> ValidName(list[i].name) && list[i].mode in Modes())
    && (forall i, j :: 0 <= i < j < |list| ==> list[i].name != list[j].name)
    && !((exists i :: 0 <= i < |list| && list[i].mode == "pppoe")
        && (exists i :: 0 <= i < |list| && list[i].mode == "l3"))
  }

  function InterfaceLines(list: seq<Interface>): seq<string> {
    if list == [] then []
    else InterfaceLines(list[..|list| - 1])
         + ["", "[[interfaces]]", Pair("name", Quoted(list[|list| - 1].name)),
             Pair("mode", Quoted(list[|list| - 1].mode))]
  }

  function TypeOf(r: Rule): (t: string)
    ensures t in ["http", "tls", "custom"]
  {
    if r.kind == "tls" then "tls" else if r.kind == "custom" then "custom" else "http"
  }

  /** A custom payload is an absolute path and goes into the text unchecked; a host name is bare and quotable. */
  predicate RuleOk(r: Rule) {
    && r.payload != ""
    && (if TypeOf(r) == "custom" then r.payload[0] == '/'
        else AllQuotable(r.payload) && forall k :: 0 <= k < |r.payload| ==> r.payload[k] !in "/: ")
    && AllQuotable(r.comment)
  }

  function RuleLines(r: Rule): seq<string> {
    ["", "[[tcp.rule]]", Pair("type", Quoted(TypeOf(r))), Pair("payload", Quoted(r.payload)),
     Pair("enabled", if r.enabled == "1" then "true" else "false")]
    + (if r.comment != "" then [Pair("comment", Quoted(r.comment))] else [])
  }

  function RulesLines(list: seq<Rule>): seq<string> {
    if list == [] then [] else RulesLines(list[..|list| - 1]) + RuleLines(list[|list| - 1])
  }

  predicate RulesOk(list: seq<Rule>) {
    && 1 <= |list| <= 3 && (forall i :: 0 <= i < |list| ==> RuleOk(list[i]))
    && exists i :: 0 <= i < |list| && list[i].enabled == "1"
  }

  /** The combinations that are refused whatever the single values. */
  predicate Combined(s: Settings) {
    && (AllDigits(Get(s, Injection, "burst")) && AllDigits(Get(s, Injection, "repeat")) ==>
          ToNat(Get(s, Injection, "burst")) >= ToNat(Get(s, Injection, "repeat")))
    && !(Get(s, Tcp, "https_hostname") != "" && Get(s, Tcp, "https_payload_file") != "")
    && !(Get(s, Tcp, "payload") == "custom" && Get(s, Tcp, "payload_file") == "")
    && !(Get(s, Udp, "payload") == "custom" && Get(s, Udp, "payload_file") == "")
  }

  function AllLines(m: Model): Option<seq<string>> {
    var (tcp, udp) := (SectionLines(Tcp, "tcp", m.settings), SectionLines(Udp, "udp", m.settings));
    var (injection, runtime) := (SectionLines(Injection, "injection", m.settings),
        SectionLines(Runtime, "runtime", m.settings));
    if !RulesOk(m.rules) || !InterfacesOk(m.interfaces) || !Combined(m.settings) then None
    else if tcp.None? || udp.None? || injection.None? || runtime.None? then None
    else Some(["version = 1"] + InterfaceLines(m.interfaces) + tcp.value + RulesLines(m.rules) + udp.value
        + injection.value + runtime.value)
  }

  function Joined(lines: seq<string>): string {
    if lines == [] then "" else lines[0] + "\n" + Joined(lines[1..])
  }

  /** `serialize`. */
  function Serialized(m: Model): Option<string> {
    match AllLines(m)
    case None => None
    case Some(lines) => Some(Joined(lines))
  }

  // ---------- parsing ----------

  /** An element of an array as `JSON.parse` gives it. */
  datatype Item = Word(text: string) | Whole(value: int) | Other

  type Json = string -> Option<seq<Item>>

  datatype State = State(settings: Settings, interfaces: seq<Interface>, rules: seq<Rule>, section: Section,
                         seen: set<(Section, nat, string)>, sections: set<Section>, version: bool)

  /** Up to a hash outside quotes. */
  function Strip(raw: string, quoted: bool): string {
    if raw == "" then ""
    else
      var q := if raw[0] == '"' then !quoted else quoted;
      if raw[0] == '#' && !q then "" else [raw[0]] + Strip(raw[1..], q)
  }

  function TrimStart(s: string): (t: string)
    ensures t == "" || !IsSpace(t[0])
  {
    if s != "" && IsSpace(s[0]) then TrimStart(s[1..]) else s
  }

  function TrimEnd(s: string): string {
    if s != "" && IsSpace(s[|s| - 1]) then TrimEnd(s[..|s| - 1]) else s
  }

  function Trim(s: string): string { TrimEnd(TrimStart(s)) }

  predicate KeyChar(c: char) { 'a' <= c <= 'z' || c == '_' }

  function KeyRun(s: string): (n: nat)
    ensures n <= |s| && (forall k :: 0 <= k < n ==> KeyChar(s[k])) && (n < |s| ==> !KeyChar(s[n]))
  {
    if s != "" && KeyChar(s[0]) then 1 + KeyRun(s[1..]) else 0
  }

  /** A key, an equals sign and a value on one line. */
  function Match(line: string): Option<(string, string)> {
    var n := KeyRun(line);
    var rest := TrimStart(line[n..]);
    if n == 0 || rest == "" || rest[0] != '=' then None
    else
      var value := TrimStart(rest[1..]);
      if value == "" || exists k :: 0 <= k < |value| && EndsLine(value[k]) then None else Some((line[..n], value))
  }

  function Unquoted(value: string): Option<string> {
    if |value| >= 2 && value[0] == '"' && value[|value| - 1] == '"' && AllQuotable(value[1..|value| - 1])
    then Some(value[1..|value| - 1]) else None
  }

  predicate Distinct(list: seq<Item>) { forall i, j :: 0 <= i < j < |list| ==> list[i] != list[j] }

  function JoinPorts(list: seq<Item>): string
    requires forall i :: 0 <= i < |list| ==> list[i].Whole? && list[i].value >= 0
  {
    if list == [] then ""
    else if |list| == 1 then Decimal(list[0].value)
    else JoinPorts(list[..|list| - 1]) + ", " + Decimal(list[|list| - 1].value)
  }

  function Value(kind: Kind, value: string, json: Json): Option<string> {
    match kind
    case Flag => if value == "true" then Some("1") else if value == "false" then Some("0") else None
    case Number(lo, hi) => if InRange(value, lo, hi) then Some(value) else None
    case Directions =>
      var list := json(value);
      if list.None? || !(1 <= |list.value| <= 2) then None
      else if exists i :: 0 <= i < |list.value| && list.value[i] != Word("active") && list.value[i] != Word("passive")
      then None
      else if |list.value| == 2 then (if list.value[0] == list.value[1] then None else Some("both"))
      else Some(list.value[0].text)
    case Ports =>
      var list := json(value);
      if list.None? || !(1 <= |list.value| <= 4) || !Distinct(list.value) then None
      else if exists i :: 0 <= i < |list.value| && !(list.value[i].Whole? && 1 <= list.value[i].value <= 65535)
      then None
      else Some(JoinPorts(list.value))
    case Choice(options) =>
      var text := Unquoted(value);
      if text.Some? && text.value in options then text else None
    case Line => Unquoted(value)
  }

  /**
   What may stand for a key. Before the first section the look-up of `_proto__` reaches the prototype of
   the table of fields, and any quoted string passes.
   */
  function KindOf(section: Section, key: string): Option<Kind> {
    match section
    case Interfaces => if key == "name" || key == "mode" then Some(Line) else None
    case Rules =>
      if key == "enabled" then Some(Flag)
      else if key == "type" then Some(Choice(["http", "tls", "custom"]))
      else if key == "payload" || key == "comment" then Some(Line)
      else None
    case Top => if key == "_proto__" then Some(Line) else None
    case _ =>
      match Lookup(FieldsOf(section), key)
      case None => None
      case Some(f) => Some(f.kind)
  }

  function Repeat(st: State): nat {
    if st.section == Interfaces then |st.interfaces| else if st.section == Rules then |st.rules| else 0
  }

  /**
   Where a value goes: into the last interface, the last rule or the settings. A string is no prototype,
   so before the first section it goes nowhere.
   */
  function Store(st: State, key: string, v: string): State {
    match st.section
    case Interfaces =>
      if st.interfaces == [] then st
      else
        var n := |st.interfaces| - 1;
        st.(interfaces := st.interfaces[n := if key == "name" then st.interfaces[n].(name := v)
            else st.interfaces[n].(mode := v)])
    case Rules =>
      if st.rules == [] then st
      else
        var n := |st.rules| - 1;
        var r := st.rules[n];
        st.(rules := st.rules[n := if key == "enabled" then r.(enabled := v) else if key == "type" then r.(kind := v)
                                   else if key == "payload" then r.(payload := v) else r.(comment := v)])
    case Top => st
    case _ => st.(settings := st.settings[Id(st.section, key) := v])
  }

  function Assign(st: State, key: string, value: string, json: Json): Option<State> {
    var id := (st.section, Repeat(st), key);
    if id in st.seen then None
    else
      var noted := st.(seen := st.seen + {id});
      if st.section == Top && key == "version" && value == "1" then Some(noted.(version := true))
      else
        match KindOf(st.section, key)
        case None => None
        case Some(kind) =>
          match Value(kind, value, json)
          case None => None
          case Some(v) => Some(Store(noted, key, v))
  }

  function HeaderOf(line: string): Option<Section> {
    if line == "[tcp]" then Some(Tcp)
    else if line == "[udp]" then Some(Udp)
    else if line == "[injection]" then Some(Injection)
    else if line == "[runtime]" then Some(Runtime)
    else None
  }

  function Step(st: State, raw: string, json: Json): Option<State> {
    var line := Trim(Strip(raw, false));
    if line == "" then Some(st)
    else if line == "[[interfaces]]" then
      Some(st.(section := Interfaces, interfaces := st.interfaces + [Interface("", "ethernet")]))
    else if line == "[[tcp.rule]]" then Some(st.(section := Rules, rules := st.rules + [NewRule()]))
    else if HeaderOf(line).Some? then
      var section := HeaderOf(line).value;
      if section in st.sections then None else Some(st.(section := section, sections := st.sections + {section}))
    else
      match Match(line)
      case None => None
      case Some((key, value)) => Assign(st, key, value, json)
  }

  function Run(st: State, lines: seq<string>, json: Json): Option<State>
    decreases |lines|
  {
    if lines == [] then Some(st)
    else
      match Step(st, lines[0], json)
      case None => None
      case Some(next) => Run(next, lines[1..], json)
  }

  /** `text.split(/\r?\n/)`. */
  function Split(text: string): seq<string> {
    SplitFrom(text, 0)
  }

  function SplitFrom(text: string, n: nat): seq<string>
    requires n <= |text| && forall k :: 0 <= k < n ==> text[k] != '\n'
    decreases |text|, |text| - n
  {
    if n == |text| then [text]
    else if text[n] == '\n' then [if n > 0 && text[n - 1] == '\r' then text[..n - 1] else text[..n]]
        + SplitFrom(text[n + 1..], 0)
    else SplitFrom(text, n + 1)
  }

  /** A configuration from before the rule table carries its payloads in the retired keys. */
  function Migrated(s: Settings): seq<Rule> {
    var payload := Get(s, Tcp, "payload");
    var first := Rule("1", if payload == "custom" then "custom" else if payload == "tls" then "tls" else "http",
                      if payload == "custom" then Get(s, Tcp, "payload_file") else Get(s, Tcp, "hostname"), "");
    var (host, file) := (Get(s, Tcp, "https_hostname"), Get(s, Tcp, "https_payload_file"));
    if host == "" && file == "" then [first]
    else [first, Rule("1", if file != "" then "custom" else "tls", if file != "" then file else host, "")]
  }

  function Start(): State { State(Defaults(), [], [], Top, {}, {}, false) }

  /** `parse`. */
  function Parsed(text: string, json: Json): Option<Model> {
    match Run(Start(), Split(text), json)
    case None => None
    case Some(st) =>
      if !st.version || st.interfaces == [] then None
      else
        var m := Model(st.settings, st.interfaces, if st.rules == [] then Migrated(st.settings) else st.rules);
        if Serialized(m).None? then None else Some(m)
  }
}
