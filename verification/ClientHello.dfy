/**
 The TLS ClientHello template (ebpf/user/templates.c:36-87): a printer that writes through a moving
 position and patches the lengths in afterwards, and a parser that follows the lengths as section
 4.1.2 of RFC 8446, section 3 of RFC 6066, section 3.1 of RFC 7301 and section 3 of RFC 7685 lay
 them out.
 */
module ClientHello {
  import opened Bytes
  import opened Common
  import opened Abi

  const HELLO_BYTES := 512
  const NAME_MAX := 253

  // ---------- reading ----------

  datatype Extension = Extension(kind: u16, data: seq<byte>)

  datatype Hello = Hello(random: seq<byte>, session: seq<byte>, suites: seq<byte>, compression: seq<byte>,
                         extensions: seq<Extension>)

  datatype Piece = Piece(data: seq<byte>, rest: seq<byte>)

  /** A vector behind a one-byte length. */
  function Vector8(b: seq<byte>): Option<Piece> {
    if |b| < 1 || |b| < 1 + b[0] as int then None else Some(Piece(b[1..1 + b[0] as int], b[1 + b[0] as int..]))
  }

  /** A vector behind a two-byte length. */
  function Vector16(b: seq<byte>): Option<Piece> {
    if |b| < 2 || |b| < 2 + Read16(b, 0) then None else Some(Piece(b[2..2 + Read16(b, 0)], b[2 + Read16(b, 0)..]))
  }

  function ReadExtensions(b: seq<byte>): Option<seq<Extension>> {
    if b == [] then Some([])
    else if |b| < 2 then None
    else
      match Vector16(b[2..])
      case None => None
      case Some(piece) =>
        match ReadExtensions(piece.rest)
        case None => None
        case Some(more) => Some([Extension(Read16(b, 0), piece.data)] + more)
  }

  function ReadBody(b: seq<byte>): Option<Hello> {
    if |b| < 34 || Read16(b, 0) != 0x0303 then None
    else
      var session := Vector8(b[34..]);
      if session.None? || |session.value.data| > 32 then None
      else
        var suites := Vector16(session.value.rest);
        if suites.None? || |suites.value.data| < 2 || |suites.value.data| % 2 != 0 then None
        else
          var compression := Vector8(suites.value.rest);
          if compression.None? || compression.value.data == [] then None
          else
            var extensions := Vector16(compression.value.rest);
            if extensions.None? || extensions.value.rest != [] then None
            else
              match ReadExtensions(extensions.value.data)
              case None => None
              case Some(list) =>
                Some(Hello(b[2..34], session.value.data, suites.value.data, compression.value.data, list))
  }

  /** One handshake record holding one ClientHello, both exactly as long as they say. */
  function Read(b: seq<byte>): Option<Hello> {
    if |b| < 9 || b[0] != 22 || b[1] != 3 || Read16(b, 3) != |b| - 5 then None
    else if b[5] != 1 || b[6] as int * 0x1_0000 + Read16(b, 7) != |b| - 9 then None
    else ReadBody(b[9..])
  }

  /** The host name of a server_name extension with one entry. */
  function ServerName(data: seq<byte>): Option<seq<byte>> {
    var list := Vector16(data);
    if list.None? || list.value.rest != [] || list.value.data == [] || list.value.data[0] != 0 then None
    else
      var name := Vector16(list.value.data[1..]);
      if name.None? || name.value.rest != [] then None else Some(name.value.data)
  }

  /** A list of 16-bit code points. */
  predicate WordList(data: seq<byte>) {
    var list := Vector16(data);
    list.Some? && list.value.rest == [] && |list.value.data| >= 2 && |list.value.data| % 2 == 0
  }

  predicate ByteList(data: seq<byte>) {
    var list := Vector8(data);
    list.Some? && list.value.rest == [] && list.value.data != []
  }

  /** Protocol names one after the other, none empty. */
  predicate Names(b: seq<byte>) {
    b == [] || (Vector8(b).Some? && Vector8(b).value.data != [] && Names(Vector8(b).value.rest))
  }

  predicate NameList(data: seq<byte>) {
    var list := Vector16(data);
    list.Some? && list.value.rest == [] && list.value.data != [] && Names(list.value.data)
  }

  /** The lengths inside an extension's data agree with each other. */
  predicate Consistent(e: Extension) {
    match e.kind
    case 0 => ServerName(e.data).Some?
    case 10 => WordList(e.data)
    case 13 => WordList(e.data)
    case 11 => ByteList(e.data)
    case 16 => NameList(e.data)
    case 21 => e.data == Zeros(|e.data|)
    case _ => false
  }

  // ---------- what is printed ----------

  function ExtensionBytes(e: Extension): seq<byte> { Be16(e.kind) + Be16(|e.data|) + e.data }

  function ExtensionsBytes(list: seq<Extension>): seq<byte> {
    if list == [] then [] else ExtensionBytes(list[0]) + ExtensionsBytes(list[1..])
  }

  function Suites(): seq<byte> { [0xc0, 0x2f, 0xc0, 0x2b, 0xc0, 0x30, 0xc0, 0x2c, 0x00, 0x9c, 0x00, 0x9d] }

  function NameData(host: seq<byte>): seq<byte> { Be16(|host| + 3) + [0] + Be16(|host|) + host }

  function GroupData(): seq<byte> { [0, 6, 0, 0x1d, 0, 0x17, 0, 0x18] }

  function SignatureData(): seq<byte> { [0, 12, 4, 3, 8, 4, 4, 1, 5, 3, 8, 5, 5, 1] }

  function PointData(): seq<byte> { [1, 0] }

  function ProtocolData(): seq<byte> { [0, 12, 2, 104, 50, 8, 104, 116, 116, 112, 47, 49, 46, 49] }

  /** The extensions in order; padding makes up for the length of the name. */
  function Extensions(host: seq<byte>): seq<Extension>
    requires |host| <= NAME_MAX
  {
    [Extension(0, NameData(host)), Extension(10, GroupData()), Extension(13, SignatureData()),
     Extension(11, PointData()), Extension(16, ProtocolData()), Extension(21, Zeros(351 - |host|))]
  }

  /** From the version up to the extensions. */
  function Middle(random: seq<byte>): (m: seq<byte>)
    requires |random| == 64
    ensures |m| == 83
  {
    [3, 3] + random[..32] + [32] + random[32..] + [0, 12] + Suites() + [1, 0]
  }

  /** Record and handshake headers with their lengths. */
  function Head(): (h: seq<byte>)
    ensures |h| == 9
  {
    [22, 3, 1] + Be16(507) + [1, 0] + Be16(503)
  }

  /** The template: 512 bytes whatever the name. */
  function Printed(host: seq<byte>, random: seq<byte>): seq<byte>
    requires |host| <= NAME_MAX && |random| == 64
  {
    Head() + Middle(random) + (Be16(418) + ExtensionsBytes(Extensions(host)))
  }

  // ---------- printing, then reading ----------

  lemma {:induction false} Vector8Of(x: seq<byte>, rest: seq<byte>)
    requires |x| < 256
    ensures Vector8([|x|] + x + rest) == Some(Piece(x, rest))
  {
    var b := [|x|] + x + rest;
    assert b[1..1 + |x|] == x && b[1 + |x|..] == rest;
  }

  lemma {:induction false} Vector16Of(x: seq<byte>, rest: seq<byte>)
    requires |x| < U16
    ensures Vector16(Be16(|x|) + x + rest) == Some(Piece(x, rest))
  {
    var b := Be16(|x|) + x + rest;
    assert Read16(b, 0) == |x| by { assert b[..2] == Be16(|x|); ReadBe16(b, 0, |x|); }
    assert b[2..2 + |x|] == x && b[2 + |x|..] == rest;
  }

  predicate Printable(list: seq<Extension>) {
    forall i :: 0 <= i < |list| ==> |list[i].data| < U16
  }

  lemma {:induction false} OneRead(e: Extension, more: seq<byte>)
    requires |e.data| < U16
    ensures var b := ExtensionBytes(e) + more;
            |b| >= 2 && Read16(b, 0) == e.kind && Vector16(b[2..]) == Some(Piece(e.data, more))
  {
    hide Vector16;
    var b := ExtensionBytes(e) + more;
    assert b[0..2] == Be16(e.kind);
    ReadBe16(b, 0, e.kind);
    assert b[2..] == Be16(|e.data|) + e.data + more;
    Vector16Of(e.data, more);
  }

  lemma {:induction false} ExtensionsRead(list: seq<Extension>)
    requires Printable(list)
    ensures ReadExtensions(ExtensionsBytes(list)) == Some(list)
  {
    hide Vector16, ExtensionBytes;
    if list == [] {
    } else {
      ExtensionsRead(list[1..]);
      OneRead(list[0], ExtensionsBytes(list[1..]));
      assert list == [list[0]] + list[1..];
      assert Extension(list[0].kind, list[0].data) == list[0];
    }
  }

  lemma {:induction false} SixBytes(a: Extension, b: Extension, c: Extension, d: Extension, e: Extension, f: Extension)
    ensures ExtensionsBytes([a, b, c, d, e, f]) ==
      ExtensionBytes(a) + (ExtensionBytes(b)
          + (ExtensionBytes(c) + (ExtensionBytes(d) + (ExtensionBytes(e) + ExtensionBytes(f)))))
  {
    hide ExtensionBytes;
    FirstBytes(f, []);
    FirstBytes(e, [f]);
    FirstBytes(d, [e, f]);
    FirstBytes(c, [d, e, f]);
    FirstBytes(b, [c, d, e, f]);
    FirstBytes(a, [b, c, d, e, f]);
    assert [a] + ([b, c, d, e, f]) == [a, b, c, d, e, f] && [b] + [c, d, e, f] == [b, c, d, e, f];
    assert [c] + [d, e, f] == [c, d, e, f] && [d] + [e, f] == [d, e, f] && [e] + [f] == [e, f] && [f] + [] == [f];
  }

  lemma {:induction false} FirstBytes(e: Extension, more: seq<Extension>)
    ensures ExtensionsBytes([e] + more) == ExtensionBytes(e) + ExtensionsBytes(more)
    ensures more == [] ==> ExtensionsBytes([e] + more) == ExtensionBytes(e)
  {
    hide ExtensionBytes;
    assert ([e] + more)[1..] == more;
  }

  lemma {:induction false} ExtensionsLength(host: seq<byte>)
    requires |host| <= NAME_MAX
    ensures |ExtensionsBytes(Extensions(host))| == 418
  {
    hide ExtensionBytes, ExtensionsBytes, NameData, GroupData, SignatureData, PointData, ProtocolData;
    var l := Extensions(host);
    SixBytes(l[0], l[1], l[2], l[3], l[4], l[5]);
    Sizes(host);
  }

  lemma Sizes(host: seq<byte>)
    requires |host| <= NAME_MAX
    ensures |ExtensionBytes(Extension(0, NameData(host)))| == 9 + |host|
    ensures |ExtensionBytes(Extension(10, GroupData()))| == 12
    ensures |ExtensionBytes(Extension(13, SignatureData()))| == 18
    ensures |ExtensionBytes(Extension(11, PointData()))| == 6
    ensures |ExtensionBytes(Extension(16, ProtocolData()))| == 18
    ensures |ExtensionBytes(Extension(21, Zeros(351 - |host|)))| == 355 - |host|
  {
  }

  lemma {:induction false} BodyRead(host: seq<byte>, random: seq<byte>)
    requires |host| <= NAME_MAX && |random| == 64
    ensures ReadBody(Middle(random) + Be16(418) + ExtensionsBytes(Extensions(host)))
         == Some(Hello(random[..32], random[32..], Suites(), [0], Extensions(host)))
  {
    hide ExtensionsBytes, ReadExtensions, Extensions, Vector8, Vector16, Middle, Suites;
    var x := ExtensionsBytes(Extensions(host));
    ExtensionsLength(host);
    BodySlices(random, x);
    var afterSuites := [1] + [0] + (Be16(418) + x);
    Vector8Of(random[32..], Be16(12) + Suites() + afterSuites);
    SuitesLength();
    Vector16Of(Suites(), afterSuites);
    Vector8Of([0], Be16(418) + x);
    assert Be16(418) + x == Be16(418) + x + [];
    Vector16Of(x, []);
    ExtensionsPrintable(host);
    ExtensionsRead(Extensions(host));
  }

  lemma SuitesLength()
    ensures |Suites()| == 12
  {
  }

  lemma {:induction false} BodySlices(random: seq<byte>, x: seq<byte>)
    requires |random| == 64
    ensures var b := Middle(random) + Be16(418) + x;
            && |b| == 85 + |x| && Read16(b, 0) == 0x0303 && b[2..34] == random[..32]
            && b[34..] == [|random[32..]|] + random[32..] + (Be16(12) + Suites() + ([1] + [0] + (Be16(418) + x)))
  {
    var b := Middle(random) + Be16(418) + x;
    assert b[34..] == [32] + random[32..] + (Be16(12) + Suites() + ([1] + [0] + (Be16(418) + x)));
  }

  lemma ExtensionsPrintable(host: seq<byte>)
    requires |host| <= NAME_MAX
    ensures Printable(Extensions(host))
  {
  }

  /**
   The template is exactly 512 bytes, the reader consumes it whole, every length inside agrees, the
   name comes back, and the last extension is padding with nothing but zeros.
   */
  lemma {:induction false} HelloReads(host: seq<byte>, random: seq<byte>)
    requires |host| <= NAME_MAX && |random| == 64
    ensures |Printed(host, random)| == HELLO_BYTES
    ensures var r := Read(Printed(host, random));
            && r.Some? && r.value.random == random[..32] && r.value.session == random[32..]
            && |r.value.extensions| == 6 && r.value.extensions[0].kind == 0
            && ServerName(r.value.extensions[0].data) == Some(host)
            && (forall i :: 0 <= i < 6 ==>
                  Consistent(r.value.extensions[i]) && (r.value.extensions[i].kind == 21 <==> i == 5))
            && r.value.extensions[5].data == Zeros(351 - |host|)
  {
    hide ExtensionsBytes, ReadBody, Middle, Consistent, ServerName;
    ExtensionsLength(host);
    BodyRead(host, random);
    var b := Printed(host, random);
    assert b[..9] == [22, 3, 1, 1, 251, 1, 0, 1, 247];
    assert b[9..] == Middle(random) + Be16(418) + ExtensionsBytes(Extensions(host));
    assert b[0] == 22 && b[1] == 3 && b[3] == 1 && b[4] == 251 && b[5] == 1 && b[6] == 0 && b[7] == 1 && b[8] == 247;
    NameRead(host);
    ListsConsistent(|host|);
  }

  lemma {:induction false} NameRead(host: seq<byte>)
    requires |host| <= NAME_MAX
    ensures ServerName(NameData(host)) == Some(host) && Consistent(Extension(0, NameData(host)))
  {
    hide Vector16;
    var list := [0] + Be16(|host|) + host;
    assert NameData(host) == Be16(|list|) + list + [];
    Vector16Of(list, []);
    assert list[1..] == Be16(|host|) + host + [];
    Vector16Of(host, []);
  }

  lemma {:induction false} ListsConsistent(n: nat)
    requires n <= NAME_MAX
    ensures Consistent(Extension(10, GroupData())) && Consistent(Extension(13, SignatureData()))
    ensures Consistent(Extension(11, PointData())) && Consistent(Extension(16, ProtocolData()))
    ensures Consistent(Extension(21, Zeros(351 - n)))
  {
    hide Vector16, Vector8;
    var (groups, signatures, names) := (GroupData()[2..], SignatureData()[2..], ProtocolData()[2..]);
    assert GroupData() == Be16(|groups|) + groups + [];
    Vector16Of(groups, []);
    assert SignatureData() == Be16(|signatures|) + signatures + [];
    Vector16Of(signatures, []);
    assert PointData() == [|[0]|] + [0] + [];
    Vector8Of([0], []);
    assert ProtocolData() == Be16(|names|) + names + [];
    Vector16Of(names, []);
    NamesRead(names);
  }

  lemma {:induction false} NamesRead(names: seq<byte>)
    requires names == ProtocolData()[2..]
    ensures Names(names)
  {
    hide Vector8;
    var (first, second) := ([104, 50], [104, 116, 116, 112, 47, 49, 46, 49]);
    assert names == [|first|] + first + ([|second|] + second + []);
    Vector8Of(first, [|second|] + second + []);
    Vector8Of(second, []);
    assert Names([]);
    assert Names([|second|] + second + []);
  }

  /** Two renderings of a name differ only in the random bytes at 11 to 42 and 44 to 75. */
  lemma {:induction false} VariantsDiffer(host: seq<byte>, random: seq<byte>, other: seq<byte>, k: nat)
    requires |host| <= NAME_MAX && |random| == |other| == 64 && k < HELLO_BYTES
    ensures |Printed(host, random)| == |Printed(host, other)| == HELLO_BYTES
    ensures var (a, b) := (Printed(host, random), Printed(host, other));
            && (!(11 <= k < 43) && !(44 <= k < 76) ==> a[k] == b[k])
            && (11 <= k < 43 ==> a[k] == random[k - 11])
            && (44 <= k < 76 ==> a[k] == random[k - 12])
  {
    hide ExtensionsBytes, Extensions, Printed, Middle, Read;
    HelloReads(host, random);
    HelloReads(host, other);
    var x := ExtensionsBytes(Extensions(host));
    MiddleAt(random, other, if 9 <= k < 92 then k - 9 else 0);
    PrintedAt(host, random, k, x);
    PrintedAt(host, other, k, x);
  }

  lemma {:induction false} PrintedAt(host: seq<byte>, random: seq<byte>, k: nat, x: seq<byte>)
    requires |host| <= NAME_MAX && |random| == 64 && x == ExtensionsBytes(Extensions(host))
        && k < |Printed(host, random)|
    ensures Printed(host, random)[k] == if k < 9 then Head()[k] else if k < 92 then Middle(random)[k - 9]
        else (Be16(418) + x)[k - 92]
  {
    hide ExtensionsBytes, Extensions, Middle, Head;
  }

  lemma {:induction false} MiddleAt(random: seq<byte>, other: seq<byte>, k: nat)
    requires |random| == |other| == 64 && k < 83
    ensures var (a, b) := (Middle(random), Middle(other));
            && (!(2 <= k < 34) && !(35 <= k < 67) ==> a[k] == b[k])
            && (2 <= k < 34 ==> a[k] == random[k - 2])
            && (35 <= k < 67 ==> a[k] == random[k - 3])
  {
  }

  // ---------- the printer ----------

  /** The buffer holds the text and zeros after it. */
  ghost predicate Holds(b: seq<byte>, text: seq<byte>) {
    |text| <= |b| && b[..|text|] == text && b[|text|..] == Zeros(|b| - |text|)
  }

  lemma {:induction false} HoldsMore(b: seq<byte>, text: seq<byte>, part: seq<byte>)
    requires Holds(b, text) && |text| + |part| <= |b|
    ensures Holds(Splice(b, |text|, part), text + part)
  {
    var c := Splice(b, |text|, part);
    assert c[..|text| + |part|] == text + part;
    forall k | |text| + |part| <= k < |b| ensures c[k] == 0 { assert b[k] == b[|text|..][k - |text|]; }
  }

  method Clear(a: array<byte>)
    modifies a
    ensures a[..] == Zeros(a.Length)
  {
    for i := 0 to a.Length
      invariant forall k :: 0 <= k < i ==> a[k] == 0
    {
      a[i] := 0;
    }
  }

  method Put16(a: array<byte>, pos: nat, n: nat, ghost text: seq<byte>) returns (next: nat)
    requires pos == |text| && pos + 2 <= a.Length && Holds(a[..], text)
    modifies a
    ensures next == pos + 2 && Holds(a[..], text + Be16(n))
  {
    HoldsMore(a[..], text, Be16(n));
    Write16(a, pos, n);
    next := pos + 2;
  }

  method Put(a: array<byte>, pos: nat, part: seq<byte>, ghost text: seq<byte>) returns (next: nat)
    requires pos == |text| && pos + |part| <= a.Length && Holds(a[..], text)
    modifies a
    ensures next == pos + |part| && Holds(a[..], text + part)
  {
    HoldsMore(a[..], text, part);
    CopyInto(a, pos, part);
    next := pos + |part|;
  }

  method PutServerName(a: array<byte>, start: nat, host: seq<byte>, ghost text: seq<byte>) returns (pos: nat)
    requires start == |text| && start + 9 + |host| <= a.Length && Holds(a[..], text) && |host| <= NAME_MAX
    modifies a
    ensures pos == start + 9 + |host| && Holds(a[..], text + ExtensionBytes(Extension(0, NameData(host))))
  {
    hide Holds, Be16;
    var n := |host|;
    pos := Put16(a, start, 0, text);
    pos := Put16(a, pos, n + 5, text + Be16(0));
    pos := Put16(a, pos, n + 3, text + Be16(0) + Be16(n + 5));
    pos := Put(a, pos, [0], text + Be16(0) + Be16(n + 5) + Be16(n + 3));
    pos := Put16(a, pos, n, text + Be16(0) + Be16(n + 5) + Be16(n + 3) + [0]);
    pos := Put(a, pos, host, text + Be16(0) + Be16(n + 5) + Be16(n + 3) + [0] + Be16(n));
    assert text + Be16(0) + Be16(n + 5) + Be16(n + 3) + [0] + Be16(n) + host
        == text + (Be16(0) + Be16(n + 5) + (Be16(n + 3) + [0] + Be16(n) + host));
  }

  lemma {:induction false} GroupsText(text: seq<byte>)
    ensures text + Be16(10) + Be16(8) + Be16(6) + Be16(0x001d) + Be16(0x0017) + Be16(0x0018)
         == text + ExtensionBytes(Extension(10, GroupData()))
  {
  }

  method PutGroups(a: array<byte>, start: nat, ghost text: seq<byte>) returns (pos: nat)
    requires start == |text| && start + 12 <= a.Length && Holds(a[..], text)
    modifies a
    ensures pos == start + 12 && Holds(a[..], text + ExtensionBytes(Extension(10, GroupData())))
  {
    hide Holds, Be16, ExtensionBytes;
    pos := Put16(a, start, 10, text);
    pos := Put16(a, pos, 8, text + Be16(10));
    pos := Put16(a, pos, 6, text + Be16(10) + Be16(8));
    pos := Put16(a, pos, 0x001d, text + Be16(10) + Be16(8) + Be16(6));
    pos := Put16(a, pos, 0x0017, text + Be16(10) + Be16(8) + Be16(6) + Be16(0x001d));
    pos := Put16(a, pos, 0x0018, text + Be16(10) + Be16(8) + Be16(6) + Be16(0x001d) + Be16(0x0017));
    GroupsText(text);
  }

  lemma {:induction false} SignaturesText(text: seq<byte>)
    ensures text + Be16(13) + Be16(14) + Be16(12) + Be16(0x0403) + Be16(0x0804) + Be16(0x0401) + Be16(0x0503)
        + Be16(0x0805) + Be16(0x0501)
         == text + ExtensionBytes(Extension(13, SignatureData()))
  {
  }

  method PutSignatures(a: array<byte>, start: nat, ghost text: seq<byte>) returns (pos: nat)
    requires start == |text| && start + 18 <= a.Length && Holds(a[..], text)
    modifies a
    ensures pos == start + 18 && Holds(a[..], text + ExtensionBytes(Extension(13, SignatureData())))
  {
    hide Holds, Be16, ExtensionBytes;
    pos := Put16(a, start, 13, text);
    pos := Put16(a, pos, 14, text + Be16(13));
    pos := Put16(a, pos, 12, text + Be16(13) + Be16(14));
    pos := Put16(a, pos, 0x0403, text + Be16(13) + Be16(14) + Be16(12));
    pos := Put16(a, pos, 0x0804, text + Be16(13) + Be16(14) + Be16(12) + Be16(0x0403));
    pos := Put16(a, pos, 0x0401, text + Be16(13) + Be16(14) + Be16(12) + Be16(0x0403) + Be16(0x0804));
    pos := Put16(a, pos, 0x0503, text + Be16(13) + Be16(14) + Be16(12) + Be16(0x0403) + Be16(0x0804) + Be16(0x0401));
    pos := Put16(a, pos, 0x0805, text + Be16(13) + Be16(14) + Be16(12) + Be16(0x0403) + Be16(0x0804) + Be16(0x0401)
        + Be16(0x0503));
    pos := Put16(a, pos, 0x0501, text + Be16(13) + Be16(14) + Be16(12) + Be16(0x0403) + Be16(0x0804) + Be16(0x0401)
        + Be16(0x0503) + Be16(0x0805));
    SignaturesText(text);
  }

  lemma {:induction false} PointsText(text: seq<byte>)
    ensures text + Be16(11) + Be16(2) + [1] + [0]
         == text + ExtensionBytes(Extension(11, PointData()))
  {
  }

  method PutPoints(a: array<byte>, start: nat, ghost text: seq<byte>) returns (pos: nat)
    requires start == |text| && start + 6 <= a.Length && Holds(a[..], text)
    modifies a
    ensures pos == start + 6 && Holds(a[..], text + ExtensionBytes(Extension(11, PointData())))
  {
    hide Holds, Be16, ExtensionBytes;
    pos := Put16(a, start, 11, text);
    pos := Put16(a, pos, 2, text + Be16(11));
    pos := Put(a, pos, [1], text + Be16(11) + Be16(2));
    pos := Put(a, pos, [0], text + Be16(11) + Be16(2) + [1]);
    PointsText(text);
  }

  lemma {:induction false} ProtocolsText(text: seq<byte>)
    ensures text + Be16(16) + Be16(14) + Be16(12) + [2] + [104] + [50] + [8] + [104, 116, 116, 112, 47, 49, 46, 49]
         == text + ExtensionBytes(Extension(16, ProtocolData()))
  {
  }

  method PutProtocols(a: array<byte>, start: nat, ghost text: seq<byte>) returns (pos: nat)
    requires start == |text| && start + 18 <= a.Length && Holds(a[..], text)
    modifies a
    ensures pos == start + 18 && Holds(a[..], text + ExtensionBytes(Extension(16, ProtocolData())))
  {
    hide Holds, Be16, ExtensionBytes;
    pos := Put16(a, start, 16, text);
    pos := Put16(a, pos, 14, text + Be16(16));
    pos := Put16(a, pos, 12, text + Be16(16) + Be16(14));
    pos := Put(a, pos, [2], text + Be16(16) + Be16(14) + Be16(12));
    pos := Put(a, pos, [104], text + Be16(16) + Be16(14) + Be16(12) + [2]);
    pos := Put(a, pos, [50], text + Be16(16) + Be16(14) + Be16(12) + [2] + [104]);
    pos := Put(a, pos, [8], text + Be16(16) + Be16(14) + Be16(12) + [2] + [104] + [50]);
    pos := Put(a, pos, [104, 116, 116, 112, 47, 49, 46, 49], text + Be16(16) + Be16(14) + Be16(12) + [2] + [104]
        + [50] + [8]);
    ProtocolsText(text);
  }

  /** The first 76 bytes: the lengths are left for later. */
  function Opening(random: seq<byte>): (r: seq<byte>)
    requires |random| == 64
    ensures |r| == 76
  {
    [22, 3, 1, 0, 0, 1, 0, 0, 0, 3, 3] + random[..32] + [32] + random[32..]
  }

  method PutOpening(a: array<byte>, random: seq<byte>)
    requires a.Length == PAYLOAD_MAX && a[..] == Zeros(a.Length) && |random| == 64
    modifies a
    ensures Holds(a[..], Opening(random))
  {
    hide Opening, Holds, Splice;
    a[0] := 22;
    assert a[..] == Splice(Zeros(PAYLOAD_MAX), 0, [22]);
    Write16(a, 1, 0x0301);
    ghost var b := a[..];
    a[5] := 1;
    assert a[..] == Splice(b, 5, [1]);
    Write16(a, 9, 0x0303);
    CopyInto(a, 11, random[..32]);
    b := a[..];
    a[43] := 32;
    assert a[..] == Splice(b, 43, [32]);
    CopyInto(a, 44, random[32..]);
    OpeningSpliced(random);
  }

  lemma {:induction false} OpeningSpliced(random: seq<byte>)
    requires |random| == 64
    ensures var b := Splice(Splice(Splice(Splice(Zeros(PAYLOAD_MAX), 0, [22]), 1, Be16(0x0301)), 5, [1]), 9,
        Be16(0x0303));
            Holds(Splice(Splice(Splice(b, 11, random[..32]), 43, [32]), 44, random[32..]), Opening(random))
  {
    hide Splice;
    var b := Splice(Splice(Splice(Splice(Zeros(PAYLOAD_MAX), 0, [22]), 1, Be16(0x0301)), 5, [1]), 9, Be16(0x0303));
    var c := Splice(Splice(Splice(b, 11, random[..32]), 43, [32]), 44, random[32..]);
    assert c[..11] == [22, 3, 1, 0, 0, 1, 0, 0, 0, 3, 3];
    assert c[11..43] == random[..32];
    assert c[43..44] == [32];
    assert c[44..76] == random[32..];
    assert c[..76] == c[..11] + c[11..43] + c[43..44] + c[44..76];
  }

  lemma {:induction false} HoldsZeros(b: seq<byte>, text: seq<byte>, m: nat)
    requires Holds(b, text) && |text| + m <= |b|
    ensures Holds(b, text + Zeros(m))
  {
    forall k | |text| <= k < |b| ensures b[k] == 0 { assert b[k] == b[|text|..][k - |text|]; }
  }

  /** Everything up to the extensions, their length left open. */
  function Unfilled(random: seq<byte>): (r: seq<byte>)
    requires |random| == 64
    ensures |r| == 94
  {
    Opening(random) + Be16(12) + Suites() + [1] + [0] + Zeros(2)
  }

  /** Patching the three lengths in turns what was written into the template. */
  lemma {:induction false} Filled(b: seq<byte>, random: seq<byte>, host: seq<byte>)
    requires |host| <= NAME_MAX && |random| == 64 && |b| == PAYLOAD_MAX
    requires Holds(b, Unfilled(random) + ExtensionsBytes(Extensions(host)))
    ensures Splice(Splice(Splice(b, 92, Be16(418)), 3, Be16(507)), 6, [0, 1, 247])
         == Printed(host, random) + Zeros(PAYLOAD_MAX - HELLO_BYTES)
  {
    hide ExtensionsBytes, Extensions, Unfilled, Head, Middle;
    var (u, x) := (Unfilled(random), ExtensionsBytes(Extensions(host)));
    ExtensionsLength(host);
    var rest := x + Zeros(PAYLOAD_MAX - HELLO_BYTES);
    assert b == u + rest;
    SpliceLeft(u, rest, 92, Be16(418));
    SpliceLeft(Splice(u, 92, Be16(418)), rest, 3, Be16(507));
    SpliceLeft(Splice(Splice(u, 92, Be16(418)), 3, Be16(507)), rest, 6, [0, 1, 247]);
    UnfilledPatched(random);
    Regroup(Head(), Middle(random), Be16(418), x, Zeros(PAYLOAD_MAX - HELLO_BYTES));
  }

  lemma {:induction false} Regroup(h: seq<byte>, m: seq<byte>, w: seq<byte>, x: seq<byte>, z: seq<byte>)
    ensures h + m + w + (x + z) == h + m + (w + x) + z
  {
  }

  lemma {:induction false} SpliceLeft(u: seq<byte>, rest: seq<byte>, i: nat, part: seq<byte>)
    requires i + |part| <= |u|
    ensures Splice(u + rest, i, part) == Splice(u, i, part) + rest
  {
  }

  lemma {:induction false} UnfilledPatched(random: seq<byte>)
    requires |random| == 64
    ensures Splice(Splice(Splice(Unfilled(random), 92, Be16(418)), 3, Be16(507)), 6, [0, 1, 247])
         == Head() + Middle(random) + Be16(418)
  {
  }

  lemma {:induction false} SixExtensions(text: seq<byte>, host: seq<byte>)
    requires |host| <= NAME_MAX
    ensures text + ExtensionBytes(Extension(0, NameData(host))) + ExtensionBytes(Extension(10, GroupData()))
            + ExtensionBytes(Extension(13, SignatureData())) + ExtensionBytes(Extension(11, PointData()))
            + ExtensionBytes(Extension(16, ProtocolData())) + Be16(21) + Be16(351 - |host|) + Zeros(351 - |host|)
         == text + ExtensionsBytes(Extensions(host))
  {
    var l := Extensions(host);
    assert ExtensionBytes(l[5]) == Be16(21) + Be16(351 - |host|) + Zeros(351 - |host|);
    hide ExtensionBytes, ExtensionsBytes, NameData, GroupData, SignatureData, PointData, ProtocolData;
    SixBytes(l[0], l[1], l[2], l[3], l[4], l[5]);
    Reassociate(text, ExtensionBytes(l[0]), ExtensionBytes(l[1]), ExtensionBytes(l[2]), ExtensionBytes(l[3]),
        ExtensionBytes(l[4]),
                Be16(21), Be16(351 - |host|), Zeros(351 - |host|));
  }

  lemma {:induction false} Reassociate(t: seq<byte>, a: seq<byte>, b: seq<byte>, c: seq<byte>, d: seq<byte>,
        e: seq<byte>,
      x: seq<byte>, y: seq<byte>, z: seq<byte>)
    ensures t + a + b + c + d + e + x + y + z == t + (a + (b + (c + (d + (e + (x + y + z))))))
  {
    assert e + x + y + z == e + (x + y + z);
    assert d + e + x + y + z == d + (e + (x + y + z));
    assert c + d + e + x + y + z == c + (d + (e + (x + y + z)));
    assert b + c + d + e + x + y + z == b + (c + (d + (e + (x + y + z))));
    assert a + b + c + d + e + x + y + z == a + (b + (c + (d + (e + (x + y + z)))));
  }

  /** All extensions; a name of 253 bytes still leaves room for the padding, so the check for it never refuses. */
  method PutExtensions(a: array<byte>, start: nat, host: seq<byte>, ghost text: seq<byte>)
    requires a.Length == PAYLOAD_MAX && start == |text| == 94 && |host| <= NAME_MAX && Holds(a[..], text)
    modifies a
    ensures Holds(a[..], text + ExtensionsBytes(Extensions(host)))
  {
    hide Holds, Be16, ExtensionBytes, ExtensionsBytes, NameData, GroupData, SignatureData, PointData, ProtocolData;
    Sizes(host);
    var pos := PutServerName(a, start, host, text);
    ghost var t := text + ExtensionBytes(Extension(0, NameData(host)));
    pos := PutGroups(a, pos, t);
    t := t + ExtensionBytes(Extension(10, GroupData()));
    pos := PutSignatures(a, pos, t);
    t := t + ExtensionBytes(Extension(13, SignatureData()));
    pos := PutPoints(a, pos, t);
    t := t + ExtensionBytes(Extension(11, PointData()));
    pos := PutProtocols(a, pos, t);
    t := t + ExtensionBytes(Extension(16, ProtocolData()));
    assert pos + 4 <= HELLO_BYTES;
    pos := Put16(a, pos, 21, t);
    pos := Put16(a, pos, HELLO_BYTES - pos - 2, t + Be16(21));
    HoldsZeros(a[..], t + Be16(21) + Be16(351 - |host|), 351 - |host|);
    SixExtensions(text, host);
  }

  /** The lengths, once the end is known. */
  method PatchLengths(a: array<byte>, extlenAt: nat, extStart: nat, pos: nat)
    requires a.Length == PAYLOAD_MAX && extlenAt == 92 && extStart == 94 && pos == HELLO_BYTES
    modifies a
    ensures a[..] == Splice(Splice(Splice(old(a[..]), 92, Be16(418)), 3, Be16(507)), 6, [0, 1, 247])
  {
    Write16(a, extlenAt, pos - extStart);
    Write16(a, 3, pos - 5);
    ghost var b := a[..];
    a[6], a[7], a[8] := (pos - 9) / 0x1_0000 % 256, (pos - 9) / 256 % 256, (pos - 9) % 256;
    assert a[..] == Splice(b, 6, [0, 1, 247]);
  }

  /** Suites, compression methods and the place for the length of the extensions. */
  method PutMiddle(a: array<byte>, start: nat, ghost random: seq<byte>) returns (extlenAt: nat, pos: nat)
    requires a.Length == PAYLOAD_MAX && start == 76 && |random| == 64 && Holds(a[..], Opening(random))
    modifies a
    ensures extlenAt == 92 && pos == 94 && Holds(a[..], Unfilled(random))
  {
    hide Holds, Opening, Suites, Be16;
    SuitesLength();
    pos := Put16(a, start, |Suites()|, Opening(random));
    pos := Put(a, pos, Suites(), Opening(random) + Be16(12));
    pos := Put(a, pos, [1], Opening(random) + Be16(12) + Suites());
    pos := Put(a, pos, [0], Opening(random) + Be16(12) + Suites() + [1]);
    extlenAt := pos;
    HoldsZeros(a[..], Opening(random) + Be16(12) + Suites() + [1] + [0], 2);
    pos := pos + 2;
  }

  /** `tls`: names longer than 253 bytes are refused; anything else gives the printed template. */
  method Tls(a: array<byte>, host: seq<byte>, random: seq<byte>, noRandom: bool) returns (len: Option<nat>)
    requires a.Length == PAYLOAD_MAX && |random| == 64
    modifies a
    ensures len == if |host| > NAME_MAX || noRandom then None else Some(HELLO_BYTES)
    ensures len.Some? ==> a[..] == Printed(host, random) + Zeros(PAYLOAD_MAX - HELLO_BYTES)
  {
    hide Holds, ExtensionsBytes, Printed, Opening, Unfilled, Extensions, Splice;
    Clear(a);
    if |host| > NAME_MAX || noRandom { return None; }
    PutOpening(a, random);
    var extlenAt, extStart := PutMiddle(a, 76, random);
    PutExtensions(a, extStart, host, Unfilled(random));
    Filled(a[..], random, host);
    var pos := HELLO_BYTES;
    PatchLengths(a, extlenAt, extStart, pos);
    len := Some(pos);
  }
}
