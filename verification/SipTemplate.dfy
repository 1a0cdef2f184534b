/**
 The SIP INVITE template (ebpf/user/templates.c:120-139, 176-202, 208-241): its text, the search for
 the random identity fields in it, and the variants that replace them.
 */
module SipTemplate {
  import opened Bytes
  import opened Common
  import opened Abi

  // ---------- C strings ----------

  predicate Occurs(text: string, mark: string, i: int) {
    0 <= i <= |text| - |mark| && text[i..i + |mark|] == mark
  }

  predicate Contains(text: string, mark: string) {
    exists i :: 0 <= i <= |text| && Occurs(text, mark, i)
  }

  predicate EndsWith(text: string, end: string) {
    |end| <= |text| && text[|text| - |end|..] == end
  }

  /** `strstr`: the first occurrence. */
  function Find(text: string, mark: string): (r: Option<nat>)
    ensures r.Some? ==> Occurs(text, mark, r.value) && forall i :: 0 <= i < r.value ==> !Occurs(text, mark, i)
    ensures r.None? ==> forall i :: !Occurs(text, mark, i)
  {
    FindFrom(text, mark, 0)
  }

  function FindFrom(text: string, mark: string, from: nat): (r: Option<nat>)
    requires from <= |text|
    ensures r.Some? ==> r.value >= from && Occurs(text, mark, r.value)
    ensures r.Some? ==> forall i :: from <= i < r.value ==> !Occurs(text, mark, i)
    ensures r.None? ==> forall i :: from <= i ==> !Occurs(text, mark, i)
    decreases |text| - from
  {
    if Occurs(text, mark, from) then Some(from)
    else if from == |text| then None
    else FindFrom(text, mark, from + 1)
  }

  /** `strcspn`: the length up to the first of some characters. */
  function Span(text: string, stops: string): (n: nat)
    ensures n <= |text| && (forall k :: 0 <= k < n ==> text[k] !in stops) && (n < |text| ==> text[n] in stops)
  {
    if text == "" || text[0] in stops then 0 else 1 + Span(text[1..], stops)
  }

  predicate IsHex(c: char) { '0' <= c <= '9' || 'a' <= c <= 'f' }

  predicate AllHex(s: string) { forall k :: 0 <= k < |s| ==> IsHex(s[k]) }

  function HexDigit(n: nat): (c: char)
    requires n < 16
    ensures IsHex(c)
  {
    "0123456789abcdef"[n]
  }

  /** `hex_raw`: two digits a byte. */
  function Hex(bytes: seq<byte>): (s: string)
    ensures |s| == 2 * |bytes| && AllHex(s)
  {
    if bytes == [] then "" else [HexDigit(bytes[0] / 16), HexDigit(bytes[0] % 16)] + Hex(bytes[1..])
  }

  // ---------- the text ----------

  /** A URI the template accepts: printable ASCII without spaces, at most 253 characters. */
  predicate Safe(uri: string) {
    && "sip:" <= uri && |uri| <= 253
    && forall k :: 0 <= k < |uri| ==> 32 < uri[k] as int < 127
  }

  function HostOf(uri: string): (h: string)
    requires Safe(uri)
    ensures (forall k :: 0 <= k < |h| ==> h[k] !in ":;>" && 32 < h[k] as int < 127) && |h| <= 249
  {
    var u := uri[4..];
    var at := Span(u, "@");
    var h := if at < |u| then u[at + 1..] else u;
    h[..Span(h, ":;>")]
  }

  function UserOf(uri: string): (s: string)
    requires Safe(uri)
    ensures |s| <= 127 && forall k :: 0 <= k < |s| ==> 32 < s[k] as int < 127
  {
    var u := uri[4..];
    var at := Span(u, "@");
    if at == 0 || at == |u| then "caller" else if at > 127 then u[..127] else u[..at]
  }

  datatype Parts = Parts(uri: string, branch: string, tag: string, callId: string)

  predicate Drawn(p: Parts) {
    && Safe(p.uri) && AllHex(p.branch) && AllHex(p.tag) && AllHex(p.callId)
    && |p.branch| == 32 && |p.tag| == 8 && |p.callId| == 32
  }

  function Body(host: string): string {
    "v=0\r\no=- 1 1 IN IP4 " + host + "\r\ns=-\r\nc=IN IP4 " + host + "\r\nt=0 0\r\nm=audio 49170 RTP/AVP 0\r\n"
  }

  /** The body fits the 640-byte buffer it is rendered into. */
  lemma BodyFits(uri: string)
    requires Safe(uri)
    ensures |Body(HostOf(uri))| < 640
  {
  }

  function Rest(p: Parts): string
    requires Drawn(p)
  {
    var (host, user, body) := (HostOf(p.uri), UserOf(p.uri), Body(HostOf(p.uri)));
    "@" + (host + "\r\nCSeq: 1 INVITE\r\nContact: <sip:" + user + "@" + host
           + ">\r\nContent-Type: application/sdp" + "\r\nContent-Length: " + Decimal(|body|) + "\r\n\r\n" + body)
  }

  function FromCallId(p: Parts): string
    requires Drawn(p)
  {
    "Call-ID: " + (p.callId + Rest(p))
  }

  function FromTag(p: Parts): string
    requires Drawn(p)
  {
    ";tag=" + (p.tag + ("\r\nTo: <" + (p.uri + (">\r\n" + FromCallId(p)))))
  }

  function FromBranch(p: Parts): string
    requires Drawn(p)
  {
    ";" + ("branch=z9hG4bK" + (p.branch
        + ("\r\nMax-Forwards: 70\r\nFrom: <sip:" + (UserOf(p.uri) + ("@" + (HostOf(p.uri) + (">" + FromTag(p))))))))
  }

  function AfterUri(p: Parts): string
    requires Drawn(p)
  {
    " " + ("SIP/2.0\r\nVia: SIP/2.0/UDP " + (HostOf(p.uri) + (":" + ("5060" + FromBranch(p)))))
  }

  function Text(p: Parts): string
    requires Drawn(p)
  {
    "INVITE " + (p.uri + AfterUri(p))
  }

  // ---------- locating ----------

  datatype Field = Field(mark: string, bytes: nat, term: char)

  function Fields(): seq<Field> {
    [Field(";branch=z9hG4bK", 16, '\r'), Field(";tag=", 4, '\r'), Field("Call-ID: ", 16, '@')]
  }

  datatype Range = Range(off: nat, bytes: nat)

  /** One field: the first mark counts, and hexadecimal digits and the terminator must follow it. */
  function LocateOne(text: string, f: Field): Option<Range> {
    match Find(text, f.mark)
    case None => None
    case Some(q) =>
      var (off, span) := (q + |f.mark|, 2 * f.bytes);
      if off + span >= |text| || text[off + span] != f.term || !AllHex(text[off..off + span]) then None
      else Some(Range(off, f.bytes))
  }

  method HexRun(text: string, off: nat, span: nat) returns (ok: bool)
    requires off + span <= |text|
    ensures ok == AllHex(text[off..off + span])
  {
    var k := 0;
    while k < span
      invariant 0 <= k <= span && forall j :: off <= j < off + k ==> IsHex(text[j])
    {
      if !IsHex(text[off + k]) {
        assert !IsHex(text[off..off + span][k]);
        return false;
      }
      k := k + 1;
    }
    return true;
  }

  method Locate(text: string) returns (r: Option<seq<Range>>)
    ensures r.Some? <==> forall i :: 0 <= i < 3 ==> LocateOne(text, Fields()[i]).Some?
    ensures r.Some? ==> |r.value| == 3 && forall i :: 0 <= i < 3 ==> LocateOne(text, Fields()[i]) == Some(r.value[i])
  {
    hide AllHex;
    var (fields, ranges, i) := (Fields(), [], 0);
    while i < 3
      invariant 0 <= i <= 3 && |ranges| == i
      invariant forall j :: 0 <= j < i ==> LocateOne(text, fields[j]) == Some(ranges[j])
    {
      var f := fields[i];
      assert LocateOne(text, fields[i]) == LocateOne(text, f);
      var q := Find(text, f.mark);
      if q.None? { return None; }
      var (off, span) := (q.value + |f.mark|, 2 * f.bytes);
      if off + span >= |text| { return None; }
      if text[off + span] != f.term { return None; }
      var hex := HexRun(text, off, span);
      if !hex { return None; }
      ranges := ranges + [Range(off, f.bytes)];
      i := i + 1;
    }
    return Some(ranges);
  }

  // ---------- first occurrences ----------

  lemma Shift(a: string, b: string, mark: string, i: int)
    requires Occurs(a + b, mark, i) && i >= |a|
    ensures Occurs(b, mark, i - |a|)
  {
    assert b[i - |a|..i - |a| + |mark|] == (a + b)[i..i + |mark|];
  }

  /** Text without the mark's first character is skipped. */
  lemma SkipFirst(a: string, b: string, mark: string, i: int)
    requires Occurs(a + b, mark, i) && mark != "" && mark[0] !in a
    ensures i >= |a| && Occurs(b, mark, i - |a|)
  {
    assert (a + b)[i] == (a + b)[i..i + |mark|][0] == mark[0];
    assert i >= |a|;
    Shift(a, b, mark, i);
  }

  /** A mark does not reach across a character it does not have. */
  lemma Within(a: string, b: string, mark: string, i: int)
    requires Occurs(a + b, mark, i) && b != "" && b[0] !in mark
    ensures i < |a| ==> Occurs(a, mark, i)
    ensures i >= |a| ==> Occurs(b, mark, i - |a|)
  {
    if i < |a| {
      assert forall k :: 0 <= k < |mark| ==> (a + b)[i + k] == mark[k];
      assert i + |mark| <= |a| by {
        var k := |a| - i;
        assert (a + b)[i + k] == b[0];
      }
      assert a[i..i + |mark|] == (a + b)[i..i + |mark|];
    } else {
      Shift(a, b, mark, i);
    }
  }

  /** Text that lacks one of the mark's characters is skipped up to a character the mark does not have. */
  lemma SkipLacking(a: string, b: string, mark: string, c: char, i: int)
    requires Occurs(a + b, mark, i) && b != "" && b[0] !in mark && c in mark && c !in a
    ensures i >= |a| && Occurs(b, mark, i - |a|)
  {
    Within(a, b, mark, i);
    var k :| 0 <= k < |mark| && mark[k] == c;
    assert (a + b)[i + k] == mark[k];
    assert i >= |a|;
  }

  /** The first occurrence, known by its place. */
  lemma FindIs(text: string, mark: string, at: nat)
    requires Occurs(text, mark, at) && forall i :: Occurs(text, mark, i) ==> i >= at
    ensures Find(text, mark) == Some(at)
  {
  }

  // ---------- where the marks can be ----------

  function BranchAt(p: Parts): nat
    requires Drawn(p)
  {
    7 + |p.uri| + 1 + 26 + |HostOf(p.uri)| + 1 + 4
  }

  function TagAt(p: Parts): nat
    requires Drawn(p)
  {
    BranchAt(p) + 15 + 32 + 31 + |UserOf(p.uri)| + 1 + |HostOf(p.uri)| + 1
  }

  function CallIdAt(p: Parts): nat
    requires Drawn(p)
  {
    TagAt(p) + 5 + 8 + 7 + |p.uri| + 3
  }

  const BRANCH := ";branch=z9hG4bK"
  const TAG := ";tag="
  const CALL_ID := "Call-ID: "

  lemma Dropped(a: string, b: string, k: nat)
    requires k <= |b|
    ensures (a + b)[|a| + k..] == b[k..]
  {
  }

  /** The three fields stand where they are said to. */
  lemma BranchSuffix(p: Parts)
    requires Drawn(p)
    ensures BranchAt(p) <= |Text(p)| && Text(p)[BranchAt(p)..] == FromBranch(p)
  {
    hide HostOf, FromBranch;
    var host := HostOf(p.uri);
    Dropped("5060", FromBranch(p), 0);
    Dropped(":", "5060" + FromBranch(p), 4);
    Dropped(host, ":" + ("5060" + FromBranch(p)), 5);
    Dropped("SIP/2.0\r\nVia: SIP/2.0/UDP ", host + (":" + ("5060" + FromBranch(p))), |host| + 5);
    Dropped(" ", "SIP/2.0\r\nVia: SIP/2.0/UDP " + (host + (":" + ("5060" + FromBranch(p)))), 26 + |host| + 5);
    Dropped(p.uri, AfterUri(p), 27 + |host| + 5);
    Dropped("INVITE ", p.uri + AfterUri(p), |p.uri| + 27 + |host| + 5);
  }

  lemma TagSuffix(p: Parts)
    requires Drawn(p)
    ensures TagAt(p) <= |Text(p)| && Text(p)[TagAt(p)..] == FromTag(p)
  {
    hide HostOf, UserOf, FromTag, Text, AfterUri;
    var (host, user, from) := (HostOf(p.uri), UserOf(p.uri), FromTag(p));
    BranchSuffix(p);
    Dropped(">", from, 0);
    Dropped(host, ">" + from, 1);
    Dropped("@", host + (">" + from), |host| + 1);
    Dropped(user, "@" + (host + (">" + from)), |host| + 2);
    Dropped("\r\nMax-Forwards: 70\r\nFrom: <sip:", user + ("@" + (host + (">" + from))), |user| + |host| + 2);
    Dropped(p.branch, "\r\nMax-Forwards: 70\r\nFrom: <sip:" + (user + ("@" + (host + (">" + from)))),
        31 + |user| + |host| + 2);
    Dropped("branch=z9hG4bK", p.branch
        + ("\r\nMax-Forwards: 70\r\nFrom: <sip:" + (user + ("@" + (host + (">" + from))))),
            63 + |user| + |host| + 2);
    Dropped(";", FromBranch(p)[1..], 14 + 63 + |user| + |host| + 2);
    assert Text(p)[BranchAt(p)..][TagAt(p) - BranchAt(p)..] == Text(p)[TagAt(p)..];
  }

  lemma CallIdSuffix(p: Parts)
    requires Drawn(p)
    ensures CallIdAt(p) <= |Text(p)| && Text(p)[CallIdAt(p)..] == FromCallId(p)
  {
    hide HostOf, UserOf, FromCallId, Text;
    var from := FromCallId(p);
    TagSuffix(p);
    Dropped(">\r\n", from, 0);
    Dropped(p.uri, ">\r\n" + from, 3);
    Dropped("\r\nTo: <", p.uri + (">\r\n" + from), |p.uri| + 3);
    Dropped(p.tag, "\r\nTo: <" + (p.uri + (">\r\n" + from)), 7 + |p.uri| + 3);
    Dropped(";tag=", p.tag + ("\r\nTo: <" + (p.uri + (">\r\n" + from))), 15 + |p.uri| + 3);
    assert Text(p)[TagAt(p)..][CallIdAt(p) - TagAt(p)..] == Text(p)[CallIdAt(p)..];
  }

  /** A mark with a token behind it, found where it stands, is located there. */
  lemma LocatedAt(text: string, f: Field, at: nat, token: string, rest: string)
    requires at <= |text| && text[at..] == f.mark + (token + rest) && f.mark != ""
    requires |token| == 2 * f.bytes && AllHex(token) && rest != "" && rest[0] == f.term
    ensures Occurs(text, f.mark, at)
    ensures (forall i :: Occurs(text, f.mark, i) ==> i >= at)
        ==> LocateOne(text, f) == Some(Range(at + |f.mark|, f.bytes))
  {
    hide AllHex, Find;
    TokenAt(text, f.mark, at, token, rest);
    if forall i :: Occurs(text, f.mark, i) ==> i >= at { FindIs(text, f.mark, at); }
  }

  lemma TokenAt(text: string, mark: string, at: nat, token: string, rest: string)
    requires at <= |text| && text[at..] == mark + (token + rest) && rest != ""
    ensures var off := at + |mark|;
            && off + |token| < |text| && Occurs(text, mark, at)
            && text[off..off + |token|] == token && text[off + |token|] == rest[0]
  {
    var off := at + |mark|;
    assert text == text[..at] + (mark + (token + rest));
    assert text[at..off] == mark;
    assert text[off..off + |token|] == token;
  }

  /** Past the URI, nothing before the branch starts with a semicolon. */
  lemma PastUri(p: Parts, mark: string, j: int)
    requires Drawn(p) && Occurs(AfterUri(p), mark, j) && mark != "" && mark[0] == ';'
    ensures var skipped := 32 + |HostOf(p.uri)|; j >= skipped && Occurs(FromBranch(p), mark, j - skipped)
  {
    hide HostOf, FromBranch, Occurs;
    var host := HostOf(p.uri);
    SkipFirst(" ", "SIP/2.0\r\nVia: SIP/2.0/UDP " + (host + (":" + ("5060" + FromBranch(p)))), mark, j);
    SkipFirst("SIP/2.0\r\nVia: SIP/2.0/UDP ", host + (":" + ("5060" + FromBranch(p))), mark, j - 1);
    SkipFirst(host, ":" + ("5060" + FromBranch(p)), mark, j - 27);
    SkipFirst(":", "5060" + FromBranch(p), mark, j - 27 - |host|);
    SkipFirst("5060", FromBranch(p), mark, j - 28 - |host|);
  }

  /** What starts with a semicolon starts in the URI, and ends there, or at the branch or after. */
  lemma BeforeBranch(p: Parts, mark: string, i: int)
    requires Drawn(p) && Occurs(Text(p), mark, i) && mark != "" && mark[0] == ';' && ' ' !in mark
    ensures i >= 7
    ensures i < 7 + |p.uri| ==> Occurs(p.uri, mark, i - 7)
    ensures i >= 7 + |p.uri| ==> i >= BranchAt(p) && Occurs(FromBranch(p), mark, i - BranchAt(p))
  {
    hide HostOf, FromBranch, Occurs;
    SkipFirst("INVITE ", p.uri + AfterUri(p), mark, i);
    Within(p.uri, AfterUri(p), mark, i - 7);
    if i >= 7 + |p.uri| { PastUri(p, mark, i - 7 - |p.uri|); }
  }

  /** A tag mark in the user part is one in the URI. */
  lemma UserInUri(uri: string, mark: string, k: int)
    requires Safe(uri) && Occurs(UserOf(uri), mark, k) && mark != "" && mark[0] == ';'
    ensures Contains(uri, mark)
  {
    var user := UserOf(uri);
    assert user[k] == ';' by { assert user[k] == user[k..k + |mark|][0]; }
    assert user != "caller";
    assert user == uri[4..4 + |user|];
    SliceOccurs(uri, 4, 4 + |user|, mark, k);
  }

  lemma SliceOccurs(s: string, lo: nat, hi: nat, mark: string, k: int)
    requires lo <= hi <= |s| && Occurs(s[lo..hi], mark, k)
    ensures Occurs(s, mark, lo + k)
  {
    var (t, at) := (s[lo..hi], lo + k);
    forall j | 0 <= j < |mark| ensures s[at..at + |mark|][j] == mark[j] {
      assert t[k..k + |mark|][j] == t[k + j] == s[at + j];
    }
    assert s[at..at + |mark|] == mark;
  }

  function AfterUser(p: Parts): string
    requires Drawn(p)
  {
    "@" + (HostOf(p.uri) + (">" + FromTag(p)))
  }

  /** Neither the branch line nor the lines after it start a mark before the user part. */
  lemma PastBranch(p: Parts, mark: string, c: char, j: int)
    requires Drawn(p) && Occurs(FromBranch(p), mark, j) && mark != "" && !IsHex(mark[0])
    requires mark[0] !in "branch=z9hG4bK" && mark[0] !in "\r\nMax-Forwards: 70\r\nFrom: <sip:"
    requires 'b' !in mark && c in mark && c != ';'
    ensures j >= 78 && Occurs(UserOf(p.uri) + AfterUser(p), mark, j - 78)
  {
    hide HostOf, UserOf, FromTag, Occurs, AfterUser;
    var tail := UserOf(p.uri) + AfterUser(p);
    assert FromBranch(p) == ";" + ("branch=z9hG4bK" + (p.branch + ("\r\nMax-Forwards: 70\r\nFrom: <sip:" + tail))) by {
      AfterUserIs(p);
    }
    SkipLacking(";", "branch=z9hG4bK" + (p.branch + ("\r\nMax-Forwards: 70\r\nFrom: <sip:" + tail)), mark, c, j);
    SkipFirst("branch=z9hG4bK", p.branch + ("\r\nMax-Forwards: 70\r\nFrom: <sip:" + tail), mark, j - 1);
    NotHex(p.branch, mark[0]);
    SkipFirst(p.branch, "\r\nMax-Forwards: 70\r\nFrom: <sip:" + tail, mark, j - 15);
    SkipFirst("\r\nMax-Forwards: 70\r\nFrom: <sip:", tail, mark, j - 47);
  }

  lemma AfterUserIs(p: Parts)
    requires Drawn(p)
    ensures AfterUser(p) == "@" + (HostOf(p.uri) + (">" + FromTag(p)))
  {
  }

  lemma NotHex(s: string, c: char)
    requires AllHex(s) && !IsHex(c)
    ensures c !in s
  {
  }

  /** From the branch to the tag, the tag's mark can only be in the user part, and so in the URI. */
  lemma TagPastBranch(p: Parts, j: int)
    requires Drawn(p) && Occurs(FromBranch(p), TAG, j) && !Contains(p.uri, TAG)
    ensures j >= TagAt(p) - BranchAt(p)
  {
    hide HostOf, UserOf, FromTag, Occurs, Contains, FromBranch, AfterUser, AllHex;
    var (host, user, from) := (HostOf(p.uri), UserOf(p.uri), FromTag(p));
    PastBranch(p, TAG, 't', j);
    AfterUserIs(p);
    Within(user, AfterUser(p), TAG, j - 78);
    if j - 78 < |user| { UserInUri(p.uri, TAG, j - 78); }
    SkipFirst("@", host + (">" + from), TAG, j - 78 - |user|);
    SkipFirst(host, ">" + from, TAG, j - 79 - |user|);
    SkipFirst(">", from, TAG, j - 79 - |user| - |host|);
  }

  lemma NoSpace(uri: string)
    requires Safe(uri)
    ensures ' ' !in uri && ' ' !in HostOf(uri) && ' ' !in UserOf(uri)
  {
  }

  /** Across the URI, the Call-ID mark fits only over its end and the space behind it. */
  lemma CallIdOverUri(p: Parts, i: int)
    requires Drawn(p) && Occurs(Text(p), CALL_ID, i)
    ensures i >= 7
    ensures i < 8 + |p.uri| ==> EndsWith(p.uri, "Call-ID:") && i == |p.uri| - 1
    ensures i >= 8 + |p.uri| ==> Occurs(AfterUri(p)[1..], CALL_ID, i - 8 - |p.uri|)
  {
    hide HostOf, FromBranch;
    var b := AfterUri(p)[1..];
    SkipFirst("INVITE ", p.uri + AfterUri(p), CALL_ID, i);
    assert p.uri + AfterUri(p) == (p.uri + " ") + b;
    assert b[0] == 'S';
    Within(p.uri + " ", b, CALL_ID, i - 7);
    if i < 8 + |p.uri| {
      var (a, k) := (p.uri + " ", i - 7);
      assert a[k + 8] == a[k..k + 9][8] == ' ';
      NoSpace(p.uri);
      assert k + 8 == |p.uri|;
      assert p.uri[k..] == a[k..k + 9][..8];
    }
  }

  lemma CallIdPastVia(p: Parts, j: int)
    requires Drawn(p) && Occurs(AfterUri(p)[1..], CALL_ID, j)
    ensures j >= 31 + |HostOf(p.uri)| && Occurs(FromBranch(p), CALL_ID, j - 31 - |HostOf(p.uri)|)
  {
    hide HostOf, FromBranch, Occurs;
    var host := HostOf(p.uri);
    NoSpace(p.uri);
    assert AfterUri(p)[1..] == "SIP/2.0\r\nVia: SIP/2.0/UDP " + (host + (":" + ("5060" + FromBranch(p))));
    SkipFirst("SIP/2.0\r\nVia: SIP/2.0/UDP ", host + (":" + ("5060" + FromBranch(p))), CALL_ID, j);
    assert host + (":" + ("5060" + FromBranch(p))) == (host + ":") + ("5060" + FromBranch(p));
    SkipLacking(host + ":", "5060" + FromBranch(p), CALL_ID, ' ', j - 26);
    SkipFirst("5060", FromBranch(p), CALL_ID, j - 27 - |host|);
  }

  lemma CallIdPastBranch(p: Parts, j: int)
    requires Drawn(p) && Occurs(FromBranch(p), CALL_ID, j)
    ensures j >= TagAt(p) - BranchAt(p) && Occurs(FromTag(p), CALL_ID, j - (TagAt(p) - BranchAt(p)))
  {
    hide HostOf, UserOf, FromTag, Occurs, FromBranch;
    var (host, user, from) := (HostOf(p.uri), UserOf(p.uri), FromTag(p));
    NoSpace(p.uri);
    PastBranch(p, CALL_ID, ' ', j);
    SkipLacking(user, AfterUser(p), CALL_ID, ' ', j - 78);
    SkipFirst("@", host + (">" + from), CALL_ID, j - 78 - |user|);
    SkipLacking(host, ">" + from, CALL_ID, ' ', j - 79 - |user|);
    SkipFirst(">", from, CALL_ID, j - 79 - |user| - |host|);
  }

  lemma CallIdPastTag(p: Parts, j: int)
    requires Drawn(p) && Occurs(FromTag(p), CALL_ID, j)
    ensures j >= CallIdAt(p) - TagAt(p)
  {
    hide HostOf, UserOf, FromCallId, Occurs;
    var from := FromCallId(p);
    NoSpace(p.uri);
    SkipFirst(";tag=", p.tag + ("\r\nTo: <" + (p.uri + (">\r\n" + from))), CALL_ID, j);
    NotHex(p.tag, 'C');
    SkipFirst(p.tag, "\r\nTo: <" + (p.uri + (">\r\n" + from)), CALL_ID, j - 5);
    SkipFirst("\r\nTo: <", p.uri + (">\r\n" + from), CALL_ID, j - 13);
    SkipLacking(p.uri, ">\r\n" + from, CALL_ID, ' ', j - 20);
    SkipFirst(">\r\n", from, CALL_ID, j - 20 - |p.uri|);
  }

  // ---------- when locating succeeds ----------

  /** A mark found in the URI is never accepted: what would have to follow reaches the space behind the URI. */
  lemma UriFails(p: Parts, f: Field, q: nat)
    requires Drawn(p) && Find(Text(p), f.mark) == Some(q) && q >= 7 && f.term == '\r'
    requires Occurs(p.uri, f.mark, q - 7)
    ensures LocateOne(Text(p), f).None?
  {
    hide Find, HostOf, FromBranch;
    var (text, off, span) := (Text(p), q + |f.mark|, 2 * f.bytes);
    var end := 7 + |p.uri|;
    assert text[end] == ' ';
    assert forall k :: 7 <= k < end ==> text[k] == p.uri[k - 7];
    if off + span < |text| {
      if off + span <= end {
        assert text[off + span] != '\r';
      } else {
        assert text[off..off + span][end - off] == ' ';
        assert !IsHex(' ');
      }
    }
  }

  lemma MarkInUri(p: Parts, mark: string)
    requires Drawn(p) && Contains(p.uri, mark)
    ensures Find(Text(p), mark).Some? && Find(Text(p), mark).value < 7 + |p.uri| - |mark| + 1
  {
    hide AfterUri;
    var i :| 0 <= i <= |p.uri| && Occurs(p.uri, mark, i);
    assert Text(p)[7 + i..7 + i + |mark|] == p.uri[i..i + |mark|];
    assert Occurs(Text(p), mark, 7 + i);
  }

  lemma BranchRest(p: Parts) returns (rest: string)
    requires Drawn(p)
    ensures rest != "" && rest[0] == '\r' && FromBranch(p) == BRANCH + (p.branch + rest)
  {
    hide UserOf, HostOf, FromTag;
    rest := "\r\nMax-Forwards: 70\r\nFrom: <sip:" + (UserOf(p.uri) + AfterUser(p));
    assert FromBranch(p) == ";" + ("branch=z9hG4bK" + (p.branch + rest));
    assert ";" + "branch=z9hG4bK" == BRANCH;
    assert ";" + ("branch=z9hG4bK" + (p.branch + rest)) == BRANCH + (p.branch + rest);
  }

  lemma BranchLocated(p: Parts)
    requires Drawn(p)
    ensures LocateOne(Text(p), Fields()[0]) == if Contains(p.uri, BRANCH) then None
        else Some(Range(BranchAt(p) + 15, 16))
  {
    hide Text, AfterUri, HostOf, UserOf, FromTag, FromBranch, Find, Occurs, LocateOne, AllHex;
    if Contains(p.uri, BRANCH) {
      MarkInUri(p, BRANCH);
      var q := Find(Text(p), BRANCH).value;
      BeforeBranch(p, BRANCH, q);
      UriFails(p, Fields()[0], q);
    } else {
      BranchSuffix(p);
      var rest := BranchRest(p);
      forall i | Occurs(Text(p), BRANCH, i) ensures i >= BranchAt(p) {
        BeforeBranch(p, BRANCH, i);
        NotContained(p.uri, BRANCH, i - 7);
      }
      LocatedAt(Text(p), Fields()[0], BranchAt(p), p.branch, rest);
    }
  }

  lemma NotContained(uri: string, mark: string, i: int)
    requires !Contains(uri, mark)
    ensures !Occurs(uri, mark, i)
  {
  }

  lemma TagLocated(p: Parts)
    requires Drawn(p)
    ensures LocateOne(Text(p), Fields()[1]) == if Contains(p.uri, TAG) then None else Some(Range(TagAt(p) + 5, 4))
  {
    hide Text, AfterUri, HostOf, UserOf, FromCallId, FromBranch, Find, Occurs, LocateOne, AllHex;
    if Contains(p.uri, TAG) {
      MarkInUri(p, TAG);
      var q := Find(Text(p), TAG).value;
      BeforeBranch(p, TAG, q);
      UriFails(p, Fields()[1], q);
    } else {
      TagSuffix(p);
      var rest := "\r\nTo: <" + (p.uri + (">\r\n" + FromCallId(p)));
      assert FromTag(p) == TAG + (p.tag + rest) && rest[0] == '\r';
      forall i | Occurs(Text(p), TAG, i) ensures i >= TagAt(p) {
        BeforeBranch(p, TAG, i);
        NotContained(p.uri, TAG, i - 7);
        TagPastBranch(p, i - BranchAt(p));
      }
      LocatedAt(Text(p), Fields()[1], TagAt(p), p.tag, rest);
    }
  }

  /** Over the end of the URI the mark is followed by the protocol version, which is not hexadecimal. */
  lemma CallIdFails(p: Parts)
    requires Drawn(p) && EndsWith(p.uri, "Call-ID:")
    ensures LocateOne(Text(p), Fields()[2]).None?
  {
    hide HostOf, FromBranch, Text, AfterUri, LocateOne, Find, Occurs;
    CallIdOverEnd(p);
    var q := Find(Text(p), CALL_ID).value;
    CallIdOverUri(p, q);
    assert !IsHex('S');
    NotHexBehind(Text(p), Fields()[2], q);
  }

  lemma NotHexBehind(text: string, f: Field, q: nat)
    requires Find(text, f.mark) == Some(q) && q + |f.mark| < |text| && !IsHex(text[q + |f.mark|]) && f.bytes > 0
    ensures LocateOne(text, f).None?
  {
    hide Find, IsHex, Occurs;
    var (off, span) := (q + |f.mark|, 2 * f.bytes);
    if off + span < |text| { assert text[off..off + span][0] == text[off]; }
  }

  lemma CallIdOverEnd(p: Parts)
    requires Drawn(p) && EndsWith(p.uri, "Call-ID:")
    ensures |p.uri| >= 8 && |Text(p)| > |p.uri| + 8 && Text(p)[|p.uri| + 8] == 'S'
    ensures Find(Text(p), CALL_ID).Some? && Find(Text(p), CALL_ID).value < 8 + |p.uri|
  {
    hide HostOf, FromBranch, Find;
    var (text, at) := (Text(p), |p.uri| - 1);
    assert text[at..at + 8] == p.uri[|p.uri| - 8..];
    assert text[at + 8] == ' ' && text[at + 9] == 'S';
    assert text[at..at + 9] == text[at..at + 8] + [text[at + 8]];
    assert Occurs(text, CALL_ID, at);
  }

  lemma CallIdLocated(p: Parts)
    requires Drawn(p)
    ensures LocateOne(Text(p), Fields()[2]) == if EndsWith(p.uri, "Call-ID:") then None
        else Some(Range(CallIdAt(p) + 9, 16))
  {
    hide Text, HostOf, UserOf, FromTag, FromBranch, Find, Occurs, LocateOne, AllHex;
    if EndsWith(p.uri, "Call-ID:") {
      CallIdFails(p);
    } else {
      CallIdSuffix(p);
      assert FromCallId(p) == CALL_ID + (p.callId + Rest(p)) && Rest(p)[0] == '@';
      forall i | Occurs(Text(p), CALL_ID, i) ensures i >= CallIdAt(p) {
        CallIdOverUri(p, i);
        CallIdPastVia(p, i - 8 - |p.uri|);
        CallIdPastBranch(p, i - BranchAt(p));
        CallIdPastTag(p, i - TagAt(p));
      }
      LocatedAt(Text(p), Fields()[2], CallIdAt(p), p.callId, Rest(p));
    }
  }

  /** The URIs whose own text does not get in the way of the search. */
  predicate Unmarked(uri: string) {
    !Contains(uri, BRANCH) && !Contains(uri, TAG) && !EndsWith(uri, "Call-ID:")
  }

  function Ranges(p: Parts): seq<Range>
    requires Drawn(p)
  {
    [Range(BranchAt(p) + 15, 16), Range(TagAt(p) + 5, 4), Range(CallIdAt(p) + 9, 16)]
  }

  /**
   Locating succeeds exactly if the URI contains neither the branch mark nor the tag mark and does not
   end in the Call-ID mark, and then it finds the three tokens that were rendered.
   */
  lemma LocatesExactly(p: Parts)
    requires Drawn(p)
    ensures (forall i :: 0 <= i < 3 ==> LocateOne(Text(p), Fields()[i]).Some?) <==> Unmarked(p.uri)
    ensures Unmarked(p.uri) ==> forall i :: 0 <= i < 3 ==> LocateOne(Text(p), Fields()[i]) == Some(Ranges(p)[i])
  {
    hide LocateOne, Text, Contains, EndsWith, BranchAt, TagAt, CallIdAt, Drawn;
    BranchLocated(p);
    TagLocated(p);
    CallIdLocated(p);
    var (a, b, c) := (LocateOne(Text(p), Fields()[0]), LocateOne(Text(p), Fields()[1]),
        LocateOne(Text(p), Fields()[2]));
    assert Unmarked(p.uri) <==> a.Some? && b.Some? && c.Some?;
  }

  // ---------- the variants ----------

  function Patch(s: string, off: nat, token: string): (r: string)
    requires off + |token| <= |s|
    ensures |r| == |s|
    ensures forall k :: 0 <= k < |r| ==> r[k] == if off <= k < off + |token| then token[k - off] else s[k]
  {
    s[..off] + token + s[off + |token|..]
  }

  predicate Fits(len: nat, ranges: seq<Range>) {
    forall i :: 0 <= i < |ranges| ==> ranges[i].off + 2 * ranges[i].bytes < len
  }

  /** One draw of random bytes for each range; locating never records an empty one. */
  predicate Supplies(draws: seq<seq<byte>>, ranges: seq<Range>) {
    |draws| == |ranges| && forall i :: 0 <= i < |ranges| ==> |draws[i]| == ranges[i].bytes > 0
  }

  function Patched(s: string, ranges: seq<Range>, draws: seq<seq<byte>>, n: nat): (r: string)
    requires n <= |ranges| && Fits(|s|, ranges) && Supplies(draws, ranges)
    ensures |r| == |s|
  {
    if n == 0 then s else Patch(Patched(s, ranges, draws, n - 1), ranges[n - 1].off, Hex(draws[n - 1]))
  }

  lemma {:induction false} HexAt(bytes: seq<byte>, i: nat)
    requires i < |bytes|
    ensures Hex(bytes)[2 * i] == HexDigit(bytes[i] / 16) && Hex(bytes)[2 * i + 1] == HexDigit(bytes[i] % 16)
  {
    hide HexDigit;
    var (digits, rest) := ([HexDigit(bytes[0] / 16), HexDigit(bytes[0] % 16)], Hex(bytes[1..]));
    assert Hex(bytes) == digits + rest;
    if i > 0 {
      HexAt(bytes[1..], i - 1);
      assert (digits + rest)[2 * i] == rest[2 * (i - 1)] && (digits + rest)[2 * i + 1] == rest[2 * (i - 1) + 1];
    }
  }

  method HexRaw(data: array<char>, off: nat, bytes: seq<byte>)
    requires off + 2 * |bytes| <= data.Length
    modifies data
    ensures data[..] == Patch(old(data[..]), off, Hex(bytes))
  {
    hide Hex, HexDigit;
    ghost var was := data[..];
    var i := 0;
    while i < |bytes|
      invariant 0 <= i <= |bytes|
      invariant forall k :: 0 <= k < data.Length ==> data[k] == if off <= k < off + 2 * i then Hex(bytes)[k - off]
          else was[k]
    {
      HexAt(bytes, i);
      data[off + 2 * i] := HexDigit(bytes[i] / 16);
      data[off + 2 * i + 1] := HexDigit(bytes[i] % 16);
      i := i + 1;
    }
  }

  method PatchVariant(data: array<char>, ranges: seq<Range>, draws: seq<seq<byte>>) returns (ok: bool)
    requires Supplies(draws, ranges)
    modifies data
    ensures ok == Fits(data.Length, ranges)
    ensures ok ==> data[..] == Patched(old(data[..]), ranges, draws, |ranges|)
  {
    hide Hex;
    ghost var was := data[..];
    var i := 0;
    while i < |ranges|
      invariant 0 <= i <= |ranges|
      invariant forall j :: 0 <= j < i ==> ranges[j].off + 2 * ranges[j].bytes < data.Length
      invariant Fits(data.Length, ranges) ==> data[..] == Patched(was, ranges, draws, i)
    {
      if ranges[i].off + 2 * ranges[i].bytes >= data.Length { return false; }
      HexRaw(data, ranges[i].off, draws[i]);
      i := i + 1;
    }
    return true;
  }

  /** The text, flat, and the parts of it that only depend on the URI. */
  function Before(uri: string): string
    requires Safe(uri)
  {
    "INVITE " + uri + " SIP/2.0\r\nVia: SIP/2.0/UDP " + HostOf(uri) + ":5060" + BRANCH
  }

  function Between(uri: string): string
    requires Safe(uri)
  {
    "\r\nMax-Forwards: 70\r\nFrom: <sip:" + UserOf(uri) + "@" + HostOf(uri) + ">" + TAG
  }

  function Behind(uri: string): string
    requires Safe(uri)
  {
    "\r\nTo: <" + uri + ">\r\n" + CALL_ID
  }

  function Flat(a: string, x: string, b: string, y: string, c: string, z: string, d: string): string {
    a + x + b + y + c + z + d
  }

  lemma TextIsFlat(p: Parts)
    requires Drawn(p)
    ensures Text(p) == Flat(Before(p.uri), p.branch, Between(p.uri), p.tag, Behind(p.uri), p.callId, Rest(p))
    ensures |Before(p.uri)| == BranchAt(p) + 15
    ensures |Before(p.uri)| + 32 + |Between(p.uri)| == TagAt(p) + 5
    ensures |Before(p.uri)| + 32 + |Between(p.uri)| + 8 + |Behind(p.uri)| == CallIdAt(p) + 9
  {
    hide HostOf, UserOf, Rest, Occurs, Text, AfterUri, FromBranch, FromTag, FromCallId;
    var (a, b, c) := (Before(p.uri), Between(p.uri), Behind(p.uri));
    FlatHead(p);
    FlatMiddle(p);
    FlatTail(p);
    assert Text(p) == a + (p.branch + (b + (p.tag + (c + (p.callId + Rest(p))))));
    FlatIs(a, p.branch, b, p.tag, c, p.callId, Rest(p));
  }

  lemma FlatIs(a: string, x: string, b: string, y: string, c: string, z: string, d: string)
    ensures a + (x + (b + (y + (c + (z + d))))) == Flat(a, x, b, y, c, z, d)
  {
    assert c + (z + d) == c + z + d;
    assert y + (c + z + d) == y + c + z + d;
    assert b + (y + c + z + d) == b + y + c + z + d;
    assert x + (b + y + c + z + d) == x + b + y + c + z + d;
    assert a + (x + b + y + c + z + d) == a + x + b + y + c + z + d;
  }

  /** The text from the tag on without its mark. */
  function TagTail(p: Parts): string
    requires Drawn(p)
  {
    p.tag + (Behind(p.uri) + (p.callId + Rest(p)))
  }

  lemma FlatTail(p: Parts)
    requires Drawn(p)
    ensures FromTag(p) == TAG + TagTail(p)
  {
    hide Rest;
    var rest := p.callId + Rest(p);
    assert p.uri + (">\r\n" + ("Call-ID: " + rest)) == p.uri + ">\r\n" + CALL_ID + rest;
    assert "\r\nTo: <" + (p.uri + ">\r\n" + CALL_ID + rest) == Behind(p.uri) + rest;
  }

  lemma FlatMiddle(p: Parts)
    requires Drawn(p)
    ensures FromBranch(p) == BRANCH + (p.branch + (Between(p.uri) + TagTail(p)))
  {
    hide Rest, HostOf, UserOf, FromTag, TagTail;
    FlatTail(p);
    var (host, user, t) := (HostOf(p.uri), UserOf(p.uri), TagTail(p));
    assert ">" + (TAG + t) == ">" + TAG + t;
    assert host + (">" + TAG + t) == host + ">" + TAG + t;
    assert "@" + (host + ">" + TAG + t) == "@" + host + ">" + TAG + t;
    assert user + ("@" + host + ">" + TAG + t) == user + "@" + host + ">" + TAG + t;
    assert "\r\nMax-Forwards: 70\r\nFrom: <sip:" + (user + "@" + host + ">" + TAG + t) == Between(p.uri) + t;
    assert ";" + "branch=z9hG4bK" == BRANCH;
    assert ";" + ("branch=z9hG4bK" + (p.branch + (Between(p.uri) + t))) == BRANCH + (p.branch + (Between(p.uri) + t));
  }

  lemma HeadLiterals()
    ensures " " + "SIP/2.0\r\nVia: SIP/2.0/UDP " == " SIP/2.0\r\nVia: SIP/2.0/UDP " && ":" + "5060" == ":5060"
  {
  }

  lemma {:induction false} HeadJoined(i: string, uri: string, s: string, v: string, host: string, c: string, n: string,
        b: string, t: string)
    ensures i + (uri + (s + (v + (host + (c + (n + (b + t))))))) == i + uri + (s + v) + host + (c + n) + b + t
  {
    assert c + (n + (b + t)) == (c + n) + b + t;
    assert host + ((c + n) + b + t) == host + (c + n) + b + t;
    assert s + (v + (host + (c + n) + b + t)) == (s + v) + host + (c + n) + b + t;
    assert uri + ((s + v) + host + (c + n) + b + t) == uri + (s + v) + host + (c + n) + b + t;
    assert i + (uri + (s + v) + host + (c + n) + b + t) == i + uri + (s + v) + host + (c + n) + b + t;
  }

  lemma FlatHead(p: Parts)
    requires Drawn(p)
    ensures Text(p) == Before(p.uri) + (p.branch + (Between(p.uri) + TagTail(p)))
  {
    hide HostOf, FromBranch, TagTail, Between;
    FlatMiddle(p);
    HeadLiterals();
    var t := p.branch + (Between(p.uri) + TagTail(p));
    HeadJoined("INVITE ", p.uri, " ", "SIP/2.0\r\nVia: SIP/2.0/UDP ", HostOf(p.uri), ":", "5060", BRANCH, t);
  }

  lemma PatchFirst(a: string, x: string, b: string, y: string, c: string, z: string, d: string, t: string)
    requires |t| == |x|
    ensures Patch(Flat(a, x, b, y, c, z, d), |a|, t) == Flat(a, t, b, y, c, z, d)
  {
    hide Patch;
    PatchMiddle(a, x, b + y + c + z + d, t);
    RegroupFirst(a + x, b, y, c, z, d);
    RegroupFirst(a + t, b, y, c, z, d);
  }

  lemma RegroupFirst(a: string, b: string, y: string, c: string, z: string, d: string)
    ensures a + b + y + c + z + d == a + (b + y + c + z + d)
  {
    assert a + b + y == a + (b + y);
    assert a + (b + y) + c == a + (b + y + c);
    assert a + (b + y + c) + z == a + (b + y + c + z);
  }

  lemma PatchSecond(a: string, x: string, b: string, y: string, c: string, z: string, d: string, t: string)
    requires |t| == |y|
    ensures Patch(Flat(a, x, b, y, c, z, d), |a| + |x| + |b|, t) == Flat(a, x, b, t, c, z, d)
  {
    hide Patch;
    PatchMiddle(a + x + b, y, c + z + d, t);
    assert a + x + b + y + (c + z + d) == a + x + b + y + c + z + d;
    assert a + x + b + t + (c + z + d) == a + x + b + t + c + z + d;
  }

  lemma PatchThird(a: string, x: string, b: string, y: string, c: string, z: string, d: string, t: string)
    requires |t| == |z|
    ensures Patch(Flat(a, x, b, y, c, z, d), |a| + |x| + |b| + |y| + |c|, t) == Flat(a, x, b, y, c, t, d)
  {
    hide Patch;
    PatchMiddle(a + x + b + y + c, z, d, t);
  }

  /** Patching the three tokens in turn. */
  lemma FlatPatched(a: string, x: string, b: string, y: string, c: string, z: string, d: string, x': string,
        y': string, z': string)
    requires |x'| == |x| && |y'| == |y| && |z'| == |z|
    ensures var f := Patch(Flat(a, x, b, y, c, z, d), |a|, x');
            var g := Patch(f, |a| + |x| + |b|, y');
            Patch(g, |a| + |x| + |b| + |y| + |c|, z') == Flat(a, x', b, y', c, z', d)
  {
    hide Patch, Flat;
    PatchFirst(a, x, b, y, c, z, d, x');
    PatchSecond(a, x', b, y, c, z, d, y');
    PatchThird(a, x', b, y', c, z, d, z');
    FlatLength(a, x, b, y, c, z, d);
  }

  lemma FlatLength(a: string, x: string, b: string, y: string, c: string, z: string, d: string)
    ensures |Flat(a, x, b, y, c, z, d)| == |a| + |x| + |b| + |y| + |c| + |z| + |d|
  {
  }

  lemma PatchMiddle(a: string, x: string, b: string, x': string)
    requires |x'| == |x|
    ensures Patch(a + x + b, |a|, x') == a + x' + b
  {
  }

  /** Patching a rendering gives the rendering with other tokens: same length, same places. */
  lemma VariantIsRendering(p: Parts, draws: seq<seq<byte>>)
    requires Drawn(p) && Fits(|Text(p)|, Ranges(p)) && Supplies(draws, Ranges(p))
    ensures var q := Parts(p.uri, Hex(draws[0]), Hex(draws[1]), Hex(draws[2]));
            && Drawn(q) && Ranges(q) == Ranges(p) && |Text(q)| == |Text(p)|
            && Patched(Text(p), Ranges(p), draws, 3) == Text(q)
  {
    hide Hex, HostOf, UserOf, Text, Flat, Before, Between, Behind, AllHex, Patch, Patched, Rest, Fits;
    var (x, y, z) := (Hex(draws[0]), Hex(draws[1]), Hex(draws[2]));
    assert |draws[0]| == Ranges(p)[0].bytes == 16 && |draws[1]| == Ranges(p)[1].bytes == 4
        && |draws[2]| == Ranges(p)[2].bytes == 16;
    var q := Parts(p.uri, x, y, z);
    TextIsFlat(p);
    TextIsFlat(q);
    RestSame(p, q);
    FlatPatched(Before(p.uri), p.branch, Between(p.uri), p.tag, Behind(p.uri), p.callId, Rest(p), x, y, z);
    PatchedThrice(Text(p), Ranges(p), draws);
  }

  lemma RestSame(p: Parts, q: Parts)
    requires Drawn(p) && Drawn(q) && p.uri == q.uri
    ensures Rest(p) == Rest(q)
  {
  }

  lemma PatchedThrice(s: string, r: seq<Range>, draws: seq<seq<byte>>)
    requires |r| == 3 && Fits(|s|, r) && Supplies(draws, r)
    ensures Patched(s, r, draws, 3)
         == Patch(Patch(Patch(s, r[0].off, Hex(draws[0])), r[1].off, Hex(draws[1])), r[2].off, Hex(draws[2]))
  {
    hide Hex;
    assert Patched(s, r, draws, 0) == s;
    assert Patched(s, r, draws, 1) == Patch(s, r[0].off, Hex(draws[0]));
    assert Patched(s, r, draws, 2) == Patch(Patched(s, r, draws, 1), r[1].off, Hex(draws[1]));
  }

  /**
   A variant keeps the length and every character outside the three ranges, which follow one another
   without touching, and has lower-case hexadecimal digits inside them.
   */
  lemma VariantDiffers(p: Parts, draws: seq<seq<byte>>, k: nat)
    requires Drawn(p) && Fits(|Text(p)|, Ranges(p)) && Supplies(draws, Ranges(p)) && k < |Text(p)|
    ensures var (r, v) := (Ranges(p), Patched(Text(p), Ranges(p), draws, 3));
            && |v| == |Text(p)| && r[0].off + 32 < r[1].off && r[1].off + 8 < r[2].off && r[2].off + 32 < |Text(p)|
            && (if exists i :: 0 <= i < 3 && r[i].off <= k < r[i].off + 2 * r[i].bytes then IsHex(v[k])
                else v[k] == Text(p)[k])
  {
    hide Hex, HostOf, UserOf, Text, Patched, Rest, IsHex;
    PatchedThrice(Text(p), Ranges(p), draws);
  }

  /** Text of single-byte characters. */
  predicate Printable(s: string) { forall k :: 0 <= k < |s| ==> s[k] as int < 128 }

  lemma {:induction false} PatchedPrintable(s: string, ranges: seq<Range>, draws: seq<seq<byte>>, n: nat)
    requires n <= |ranges| && Fits(|s|, ranges) && Supplies(draws, ranges) && Printable(s)
    ensures Printable(Patched(s, ranges, draws, n))
  {
    hide Hex, Patch;
    if n > 0 {
      PatchedPrintable(s, ranges, draws, n - 1);
      assert AllHex(Hex(draws[n - 1]));
    }
  }

  lemma PrintableJoin(a: string, b: string)
    requires Printable(a) && Printable(b)
    ensures Printable(a + b)
  {
  }

  lemma HexPrintable(s: string)
    requires AllHex(s)
    ensures Printable(s)
  {
    forall k | 0 <= k < |s| ensures s[k] as int < 128 {
      assert IsHex(s[k]);
      assert s[k] <= 'f' && 'f' as int == 102;
    }
  }

  lemma DecimalPrintable(n: nat)
    ensures Printable(Decimal(n))
  {
    hide Decimal, ToNat;
  }

  lemma {:induction false} NamesPrintable(uri: string)
    requires Safe(uri)
    ensures Printable(uri) && Printable(HostOf(uri)) && Printable(UserOf(uri))
  {
  }

  lemma BodyLiterals()
    ensures Printable("v=0\r\no=- 1 1 IN IP4 ") && Printable("\r\ns=-\r\nc=IN IP4 ")
    ensures Printable("\r\nt=0 0\r\nm=audio 49170 RTP/AVP 0\r\n")
  {
  }

  lemma RestLiterals()
    ensures Printable("\r\nCSeq: 1 INVITE\r\nContact: <sip:") && Printable("\r\n\r\n") && Printable("@")
  {
  }

  lemma TypeLiterals()
    ensures Printable(">\r\nContent-Type: application/sdp") && Printable("\r\nContent-Length: ")
  {
  }

  lemma {:induction false} BodyPrintable(host: string)
    requires Printable(host)
    ensures Printable(Body(host))
  {
    var (a, b, c) := ("v=0\r\no=- 1 1 IN IP4 ", "\r\ns=-\r\nc=IN IP4 ", "\r\nt=0 0\r\nm=audio 49170 RTP/AVP 0\r\n");
    BodyLiterals();
    hide Printable;
    PrintableJoin(a, host);
    PrintableJoin(a + host, b);
    PrintableJoin(a + host + b, host);
    PrintableJoin(a + host + b + host, c);
  }

  lemma {:induction false} RestPrintable(p: Parts)
    requires Drawn(p)
    ensures Printable(Rest(p))
  {
    hide HostOf, UserOf, Decimal, Body;
    var (host, user, length, body) :=
        (HostOf(p.uri), UserOf(p.uri), Decimal(|Body(HostOf(p.uri))|), Body(HostOf(p.uri)));
    NamesPrintable(p.uri);
    BodyPrintable(host);
    DecimalPrintable(|Body(host)|);
    var (a, b) := ("\r\nCSeq: 1 INVITE\r\nContact: <sip:", ">\r\nContent-Type: application/sdp");
    var (c, d) := ("\r\nContent-Length: ", "\r\n\r\n");
    RestLiterals();
    TypeLiterals();
    hide Printable;
    PrintableJoin(host, a);
    PrintableJoin(host + a, user);
    PrintableJoin(host + a + user, "@");
    PrintableJoin(host + a + user + "@", host);
    PrintableJoin(host + a + user + "@" + host, b);
    PrintableJoin(host + a + user + "@" + host + b, c);
    PrintableJoin(host + a + user + "@" + host + b + c, length);
    PrintableJoin(host + a + user + "@" + host + b + c + length, d);
    PrintableJoin(host + a + user + "@" + host + b + c + length + d, body);
    PrintableJoin("@", host + a + user + "@" + host + b + c + length + d + body);
  }

  lemma LiteralsPrintable()
    ensures Printable("INVITE ") && Printable(" SIP/2.0\r\nVia: SIP/2.0/UDP ") && Printable(":5060")
        && Printable(BRANCH)
    ensures Printable("\r\nMax-Forwards: 70\r\nFrom: <sip:") && Printable("@") && Printable(">") && Printable(TAG)
    ensures Printable("\r\nTo: <") && Printable(">\r\n") && Printable(CALL_ID)
  {
  }

  lemma {:induction false} BeforePrintable(uri: string)
    requires Safe(uri)
    ensures Printable(Before(uri))
  {
    hide HostOf, UserOf, Printable;
    NamesPrintable(uri);
    LiteralsPrintable();
    var (host, a) := (HostOf(uri), " SIP/2.0\r\nVia: SIP/2.0/UDP ");
    PrintableJoin("INVITE ", uri);
    PrintableJoin("INVITE " + uri, a);
    PrintableJoin("INVITE " + uri + a, host);
    PrintableJoin("INVITE " + uri + a + host, ":5060");
    PrintableJoin("INVITE " + uri + a + host + ":5060", BRANCH);
  }

  lemma {:induction false} PartsPrintable(uri: string)
    requires Safe(uri)
    ensures Printable(Before(uri)) && Printable(Between(uri)) && Printable(Behind(uri))
  {
    hide HostOf, UserOf, Printable;
    BeforePrintable(uri);
    NamesPrintable(uri);
    LiteralsPrintable();
    var (host, user) := (HostOf(uri), UserOf(uri));
    var (b, c) := ("\r\nMax-Forwards: 70\r\nFrom: <sip:", "\r\nTo: <");
    PrintableJoin(b, user);
    PrintableJoin(b + user, "@");
    PrintableJoin(b + user + "@", host);
    PrintableJoin(b + user + "@" + host, ">");
    PrintableJoin(b + user + "@" + host + ">", TAG);
    PrintableJoin(c, uri);
    PrintableJoin(c + uri, ">\r\n");
    PrintableJoin(c + uri + ">\r\n", CALL_ID);
  }

  /** Everything a rendering consists of is single-byte text. */
  lemma {:induction false} TextPrintable(p: Parts)
    requires Drawn(p)
    ensures Printable(Text(p))
  {
    TextIsFlat(p);
    RestPrintable(p);
    PartsPrintable(p.uri);
    HexPrintable(p.branch);
    HexPrintable(p.tag);
    HexPrintable(p.callId);
    hide Text, Rest, Before, Between, Behind, Printable;
    var (a, b, c) := (Before(p.uri), Between(p.uri), Behind(p.uri));
    PrintableJoin(a, p.branch);
    PrintableJoin(a + p.branch, b);
    PrintableJoin(a + p.branch + b, p.tag);
    PrintableJoin(a + p.branch + b + p.tag, c);
    PrintableJoin(a + p.branch + b + p.tag + c, p.callId);
    PrintableJoin(a + p.branch + b + p.tag + c + p.callId, Rest(p));
  }

  // ---------- the template as a whole ----------

  datatype Plan = Plan(text: string, ranges: seq<Range>)

  /** What the daemon takes for a SIP URI. */
  predicate Acceptable(uri: string) {
    "sip:" <= uri && forall k :: 0 <= k < |uri| ==> 32 < uri[k] as int < 127
  }

  method SafeText(s: string) returns (ok: bool)
    ensures ok <==> s != "" && forall k :: 0 <= k < |s| ==> 32 < s[k] as int < 127
  {
    if s == "" { return false; }
    var i := 0;
    while i < |s|
      invariant 0 <= i <= |s| && forall k :: 0 <= k < i ==> 32 < s[k] as int < 127
    {
      if s[i] as int <= 32 || s[i] as int >= 127 { return false; }
      i := i + 1;
    }
    return true;
  }

  /**
   The SIP template for a URI of at most 253 characters and three draws of random bytes. It exists
   exactly if the URI is acceptable and unmarked and the text fits a payload, and its ranges are those
   of the rendered tokens.
   */
  method Render(uri: string, branch: seq<byte>, tag: seq<byte>, callId: seq<byte>) returns (r: Option<Plan>)
    requires |uri| <= 253 && |branch| == 16 && |tag| == 4 && |callId| == 16
    ensures r.Some? <==> Acceptable(uri) && Unmarked(uri)
                         && |Text(Parts(uri, Hex(branch), Hex(tag), Hex(callId)))| < PAYLOAD_MAX
    ensures r.Some? ==> var p := Parts(uri, Hex(branch), Hex(tag), Hex(callId));
                        r.value == Plan(Text(p), Ranges(p)) && Fits(|Text(p)|, Ranges(p))
  {
    hide Hex, Text, LocateOne, Unmarked, AllHex, Ranges;
    var safe := SafeText(uri);
    if !safe || !("sip:" <= uri) { return None; }
    var p := Parts(uri, Hex(branch), Hex(tag), Hex(callId));
    var text := Text(p);
    LocatesExactly(p);
    if |text| >= PAYLOAD_MAX { return None; }
    var ranges := Locate(text);
    if ranges.None? { return None; }
    assert ranges.value == Ranges(p) by { RangesThree(p); }
    RangesFit(p);
    r := Some(Plan(text, ranges.value));
  }

  lemma RangesThree(p: Parts)
    requires Drawn(p)
    ensures |Ranges(p)| == 3
  {
  }

  lemma RangesFit(p: Parts)
    requires Drawn(p)
    ensures Fits(|Text(p)|, Ranges(p))
  {
    hide Text, HostOf, UserOf, FromCallId, FromTag, FromBranch;
    CallIdSuffix(p);
    assert |FromCallId(p)| > 41 by { CallIdLength(p); }
  }

  lemma CallIdLength(p: Parts)
    requires Drawn(p)
    ensures |FromCallId(p)| > 41
  {
    hide HostOf, UserOf;
  }
}
