/**
 The printer and the parser of the configuration text as the web interface runs them: lines are
 pushed and fields are set as they come (config.js:81-166, 183-291). Both are proved against the
 functions of `ConfigText`.
 */
module ConfigEditor {
  import opened Common
  import opened ConfigText
  import ConfigRoundTrip

  // ---------- serialize ----------

  lemma {:induction false} KeyLinesPast(a: seq<Field>, b: seq<Field>, s: Settings)
    ensures KeyLines(a + b, s) == (if KeyLines(a, s).None? || KeyLines(b, s).None? then None
                                   else Some(KeyLines(a, s).value + KeyLines(b, s).value))
    decreases |a|
  {
    hide Print;
    if a == [] {
      assert a + b == b;
      if KeyLines(b, s).Some? { assert [] + KeyLines(b, s).value == KeyLines(b, s).value; }
    } else {
      assert (a + b)[1..] == a[1..] + b;
      KeyLinesPast(a[1..], b, s);
      if Print(a[0], s).Write? && KeyLines(a[1..], s).Some? && KeyLines(b, s).Some? {
        var (x, y) := (KeyLines(a[1..], s).value, KeyLines(b, s).value);
        assert [Pair(a[0].key, Print(a[0], s).text)] + (x + y) == [Pair(a[0].key, Print(a[0], s).text)] + x + y;
      }
    }
  }

  lemma {:induction false} KeyLinesNext(fields: seq<Field>, i: nat, s: Settings)
    requires i < |fields| && KeyLines(fields[..i], s).Some?
    ensures KeyLines(fields[..i + 1], s) == match Print(fields[i], s)
      case Bad => None
      case Omit => KeyLines(fields[..i], s)
      case Write(text) => Some(KeyLines(fields[..i], s).value + [Pair(fields[i].key, text)])
    ensures KeyLines(fields[..i + 1], s).None? ==> KeyLines(fields, s).None?
  {
    hide Print, Pair;
    assert fields[..i + 1] == fields[..i] + [fields[i]];
    KeyLinesPast(fields[..i], [fields[i]], s);
    OneKeyLine(fields[i], s);
    assert KeyLines(fields[..i], s).value + [] == KeyLines(fields[..i], s).value;
    assert fields == fields[..i + 1] + fields[i + 1..];
    KeyLinesPast(fields[..i + 1], fields[i + 1..], s);
  }

  lemma {:induction false} OneKeyLine(f: Field, s: Settings)
    ensures KeyLines([f], s) == match Print(f, s)
      case Bad => None
      case Omit => Some([])
      case Write(text) => Some([Pair(f.key, text)])
  {
    hide Print, Pair;
    assert KeyLines([], s) == Some([]);
    assert [f][1..] == [];
    if Print(f, s).Write? { assert [Pair(f.key, Print(f, s).text)] + [] == [Pair(f.key, Print(f, s).text)]; }
  }

  method PrintSection(section: Section, name: string, s: Settings) returns (r: Option<seq<string>>)
    ensures r == SectionLines(section, name, s)
  {
    hide Print, Pair, FieldsOf, KeyLines;
    var (fields, lines, i) := (FieldsOf(section), ["", "[" + name + "]"], 0);
    NoKeyLines(fields, s);
    while i < |fields|
      invariant 0 <= i <= |fields| && KeyLines(fields[..i], s).Some?
      invariant lines == ["", "[" + name + "]"] + KeyLines(fields[..i], s).value
    {
      KeyLinesNext(fields, i, s);
      match Print(fields[i], s) {
        case Bad => return None;
        case Omit =>
        case Write(text) => lines := lines + [Pair(fields[i].key, text)];
      }
      i := i + 1;
    }
    assert fields[..i] == fields;
    return Some(lines);
  }

  lemma NoKeyLines(fields: seq<Field>, s: Settings)
    ensures KeyLines(fields[..0], s) == Some([])
  {
  }

  predicate AnyEnabled(rules: seq<Rule>) { exists j :: 0 <= j < |rules| && rules[j].enabled == "1" }

  lemma EnabledNext(rules: seq<Rule>, i: nat)
    requires i < |rules|
    ensures AnyEnabled(rules[..i + 1]) <==> AnyEnabled(rules[..i]) || rules[i].enabled == "1"
  {
    if AnyEnabled(rules[..i]) {
      var j :| 0 <= j < i && rules[..i][j].enabled == "1";
      assert rules[..i + 1][j].enabled == "1";
    }
    if rules[i].enabled == "1" { assert rules[..i + 1][i].enabled == "1"; }
    if AnyEnabled(rules[..i + 1]) {
      var j :| 0 <= j < i + 1 && rules[..i + 1][j].enabled == "1";
      if j < i { assert rules[..i][j].enabled == "1"; }
    }
  }

  method PrintRules(rules: seq<Rule>) returns (r: Option<seq<string>>)
    ensures r == if RulesOk(rules) then Some(RulesLines(rules)) else None
  {
    hide RuleOk, RuleLines;
    if |rules| == 0 || |rules| > 3 { return None; }
    var lines: seq<string> := [];
    var (enabled, i) := (0, 0);
    while i < |rules|
      invariant 0 <= i <= |rules| && lines == RulesLines(rules[..i])
      invariant forall j :: 0 <= j < i ==> RuleOk(rules[j])
      invariant enabled >= 0 && (enabled > 0 <==> AnyEnabled(rules[..i]))
    {
      EnabledNext(rules, i);
      if rules[i].enabled == "1" { enabled := enabled + 1; }
      if !RuleOk(rules[i]) { return None; }
      lines := lines + RuleLines(rules[i]);
      assert rules[..i + 1][..i] == rules[..i];
      i := i + 1;
    }
    assert rules[..i] == rules;
    if enabled == 0 { return None; }
    return Some(lines);
  }

  method PrintInterfaces(list: seq<Interface>) returns (r: Option<seq<string>>)
    ensures r == if InterfacesOk(list) then Some(InterfaceLines(list)) else None
  {
    hide ValidName, Quoted, Pair, Modes;
    if |list| == 0 || |list| > 8 { return None; }
    var lines: seq<string> := [];
    var names: set<string>, modes: set<string>, i := {}, {}, 0;
    while i < |list|
      invariant 0 <= i <= |list| && lines == InterfaceLines(list[..i])
      invariant forall j :: 0 <= j < i ==> ValidName(list[j].name) && list[j].mode in Modes()
      invariant forall n :: n in names <==> exists j :: 0 <= j < i && list[j].name == n
      invariant forall n :: n in modes <==> exists j :: 0 <= j < i && list[j].mode == n
      invariant forall j, k :: 0 <= j < k < i ==> list[j].name != list[k].name
    {
      var d := list[i];
      if !ValidName(d.name) || d.name in names { return None; }
      if d.mode !in Modes() { return None; }
      names, modes := names + {d.name}, modes + {d.mode};
      lines := lines + ["", "[[interfaces]]", Pair("name", Quoted(d.name)), Pair("mode", Quoted(d.mode))];
      assert list[..i + 1][..i] == list[..i];
      i := i + 1;
    }
    assert list[..i] == list;
    if "pppoe" in modes && "l3" in modes { return None; }
    return Some(lines);
  }

  lemma {:induction false} JoinedPast(a: seq<string>, b: seq<string>)
    ensures Joined(a + b) == Joined(a) + Joined(b)
    decreases |a|
  {
    if a == [] {
      assert a + b == b;
    } else {
      assert (a + b)[1..] == a[1..] + b;
      JoinedPast(a[1..], b);
      assert a[0] + "\n" + (Joined(a[1..]) + Joined(b)) == a[0] + "\n" + Joined(a[1..]) + Joined(b);
    }
  }

  method JoinLines(lines: seq<string>) returns (text: string)
    ensures text == Joined(lines)
  {
    text := "";
    for i := 0 to |lines|
      invariant text == Joined(lines[..i])
    {
      assert lines[..i + 1] == lines[..i] + [lines[i]];
      JoinedPast(lines[..i], [lines[i]]);
      JoinedOne(lines[i]);
      text := text + (lines[i] + "\n");
    }
    assert lines[..|lines|] == lines;
  }

  lemma JoinedOne(line: string)
    ensures Joined([line]) == line + "\n"
  {
    assert [line][1..] == [];
  }

  method Serialize(m: Model) returns (r: Option<string>)
    ensures r == Serialized(m)
  {
    hide SectionLines, RulesOk, InterfacesOk, Combined, RulesLines, InterfaceLines, Joined;
    var interfaces := PrintInterfaces(m.interfaces);
    if interfaces.None? { return None; }
    if !Combined(m.settings) { return None; }
    var lines := ["version = 1"] + interfaces.value;
    var tcp := PrintSection(Tcp, "tcp", m.settings);
    if tcp.None? { return None; }
    var rules := PrintRules(m.rules);
    if rules.None? { return None; }
    lines := lines + tcp.value + rules.value;
    var udp := PrintSection(Udp, "udp", m.settings);
    if udp.None? { return None; }
    var injection := PrintSection(Injection, "injection", m.settings);
    if injection.None? { return None; }
    var runtime := PrintSection(Runtime, "runtime", m.settings);
    if runtime.None? { return None; }
    lines := lines + udp.value + injection.value + runtime.value;
    assert lines == ["version = 1"] + interfaces.value + tcp.value + rules.value + udp.value + injection.value
        + runtime.value;
    var text := JoinLines(lines);
    return Some(text);
  }

  // ---------- parse ----------

  lemma {:induction false} StripNext(raw: string, i: nat, quoted: bool)
    requires i < |raw|
    ensures var q := if raw[i] == '"' then !quoted else quoted;
            Strip(raw[i..], quoted) == if raw[i] == '#' && !q then "" else [raw[i]] + Strip(raw[i + 1..], q)
  {
    assert raw[i..][0] == raw[i] && raw[i..][1..] == raw[i + 1..];
  }

  /** The part of a line before its comment. */
  method StripLine(raw: string) returns (line: string)
    ensures line == Strip(raw, false)
  {
    hide Strip;
    var (quoted, i) := (false, 0);
    line := "";
    assert raw[0..] == raw;
    while i < |raw|
      invariant 0 <= i <= |raw| && line + Strip(raw[i..], quoted) == Strip(raw, false)
    {
      StripNext(raw, i, quoted);
      if raw[i] == '"' { quoted := !quoted; }
      if raw[i] == '#' && !quoted { return; }
      line := line + [raw[i]];
      i := i + 1;
    }
    StripNone(raw, quoted);
  }

  lemma StripNone(raw: string, quoted: bool)
    ensures Strip(raw[|raw|..], quoted) == ""
  {
  }

  class Reader {
    var settings: Settings
    var interfaces: seq<Interface>
    var rules: seq<Rule>
    var section: Section
    var seen: set<(Section, nat, string)>
    var sections: set<Section>
    var version: bool

    constructor ()
      ensures Now() == Start()
    {
      settings, interfaces, rules, section, seen, sections, version := Defaults(), [], [], Top, {}, {}, false;
    }

    ghost function Now(): State
      reads this
    {
      State(settings, interfaces, rules, section, seen, sections, version)
    }

    /** One line; false is a refusal. */
    method ReadLine(raw: string, json: Json) returns (ok: bool)
      modifies this
      ensures ok == Step(old(Now()), raw, json).Some?
      ensures ok ==> Now() == Step(old(Now()), raw, json).value
    {
      hide Strip, Trim, Match, KindOf, Value;
      var stripped := StripLine(raw);
      var line := Trim(stripped);
      if line == "" { return true; }
      if line == "[[interfaces]]" {
        section, interfaces := Interfaces, interfaces + [Interface("", "ethernet")];
        return true;
      }
      if line == "[[tcp.rule]]" {
        section, rules := Rules, rules + [NewRule()];
        return true;
      }
      if HeaderOf(line).Some? {
        var header := HeaderOf(line).value;
        if header in sections { return false; }
        section, sections := header, sections + {header};
        return true;
      }
      if Match(line).None? { return false; }
      var (key, value) := Match(line).value;
      ok := Set(key, value, json);
    }

    method Set(key: string, value: string, json: Json) returns (ok: bool)
      modifies this
      ensures ok == Assign(old(Now()), key, value, json).Some?
      ensures ok ==> Now() == Assign(old(Now()), key, value, json).value
    {
      hide KindOf, Value;
      var repeat := if section == Interfaces then |interfaces| else if section == Rules then |rules| else 0;
      if (section, repeat, key) in seen { return false; }
      seen := seen + {(section, repeat, key)};
      if section == Top && key == "version" && value == "1" {
        version := true;
        return true;
      }
      var kind := KindOf(section, key);
      if kind.None? { return false; }
      var parsed := Value(kind.value, value, json);
      if parsed.None? { return false; }
      var v := parsed.value;
      if section == Interfaces {
        if interfaces != [] {
          var d := interfaces[|interfaces| - 1];
          interfaces := interfaces[|interfaces| - 1 := if key == "name" then d.(name := v) else d.(mode := v)];
        }
      } else if section == Rules {
        if rules != [] {
          var r := rules[|rules| - 1];
          rules := rules[|rules| - 1 := if key == "enabled" then r.(enabled := v)
              else if key == "type" then r.(kind := v)
                                        else if key == "payload" then r.(payload := v) else r.(comment := v)];
        }
      } else if section != Top {
        settings := settings[Id(section, key) := v];
      }
      return true;
    }
  }

  lemma {:induction false} RunNext(lines: seq<string>, i: nat, st: State, json: Json)
    requires i < |lines|
    ensures Run(st, lines[i..], json)
        == match Step(st, lines[i], json) case None => None case Some(next) => Run(next, lines[i + 1..], json)
  {
    hide Step;
    assert lines[i..][0] == lines[i] && lines[i..][1..] == lines[i + 1..];
  }

  method Parse(text: string, json: Json) returns (r: Option<Model>)
    ensures r == Parsed(text, json)
  {
    hide Step, Run, Split, Serialized, Start, Migrated;
    var reader := new Reader();
    var (lines, i) := (Split(text), 0);
    assert lines[0..] == lines;
    while i < |lines|
      invariant 0 <= i <= |lines| && Run(reader.Now(), lines[i..], json) == Run(Start(), lines, json)
    {
      RunNext(lines, i, reader.Now(), json);
      var ok := reader.ReadLine(lines[i], json);
      if !ok { return None; }
      i := i + 1;
    }
    assert lines[i..] == [];
    ConfigRoundTrip.RunNothing(reader.Now(), json);
    if !reader.version || reader.interfaces == [] { return None; }
    var m := Model(reader.settings, reader.interfaces, if reader.rules == [] then Migrated(reader.settings)
        else reader.rules);
    var again := Serialize(m);
    if again.None? { return None; }
    return Some(m);
  }
}
