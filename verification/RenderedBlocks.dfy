/**
  Reading rendered text back: the lines `Render` writes, split and parsed, give one server block with a
  known list of directives and one forward-zone block per zone.
 */
module UnboundRenderedBlocks {
  import opened Text
  import opened Seqs
  import opened UnboundSettings
  import opened UnboundRender
  import opened UnboundParse

  // ---------- single lines ----------

  predicate CleanKey(key: string) { key != [] && forall i | 0 <= i < |key| :: IsLabelChar(key[i]) }

  /** Text a directive line carries unchanged. */
  predicate CleanValue(value: string) { value != [] && Trimmed(value) && '#' !in value && '\n' !in value }

  const BLANKS := "    "

  lemma ReadBlankLine(blanks: string, rest: string)
    requires forall c | c in blanks :: IsSpace(c)
    requires rest == [] || rest[0] == '#'
    ensures ReadLine(blanks + rest) == Nothing
  {
    var raw := blanks + rest;
    FirstIndexIs(raw, '#', |blanks|);
    assert StripComment(raw) == blanks;
    TrimSpaceBlanks(blanks, "");
    assert blanks + "" == blanks;
  }

  lemma ReadComment(text: string)
    ensures ReadLine(Comment(text)) == Nothing
  {
    assert Comment(text) == BLANKS + ("# " + text);
    ReadBlankLine(BLANKS, "# " + text);
  }

  lemma KeyChars(key: string)
    requires CleanKey(key)
    ensures ToLower(key) == key && Trimmed(key) && ':' !in key && '#' !in key && '\n' !in key
  {
  }

  lemma ReadParts(raw: string, line: string, key: string, rest: string)
    requires TrimSpace(StripComment(raw)) == line && line == key + ":" + rest && FirstIndex(line, ':') == |key|
    requires ToLower(TrimSpace(key)) == key
    ensures ReadLine(raw) == if TrimSpace(rest) == "" then Opens(key) else Holds(KV(key, Unquote(TrimSpace(rest))))
  {
    hide TrimSpace, StripComment, FirstIndex, ToLower, Unquote;
    assert line[..|key|] == key && line[|key| + 1..] == rest;
  }

  lemma NoComment(raw: string)
    requires '#' !in raw
    ensures StripComment(raw) == raw
  {
    FirstIndexIs(raw, '#', |raw|);
  }

  lemma ReadOpening(key: string)
    requires CleanKey(key)
    ensures ReadLine(key + ":") == Opens(key)
  {
    hide TrimSpace, StripComment, FirstIndex, ToLower, ReadLine;
    KeyChars(key);
    var raw := key + ":";
    NoComment(raw);
    TrimSpaceTrims(raw);
    FirstIndexIs(raw, ':', |key|);
    assert raw == key + ":" + "";
    TrimSpaceTrims(key);
    TrimSpaceTrims("");
    ReadParts(raw, raw, key, "");
  }

  lemma ReadDirective(key: string, value: string)
    requires CleanKey(key) && CleanValue(value)
    ensures ReadLine(Directive(key, value)) == Holds(KV(key, Unquote(value)))
    ensures '\n' !in Directive(key, value)
  {
    hide TrimSpace, StripComment, FirstIndex, ToLower, ReadLine, Unquote;
    KeyChars(key);
    var raw := Directive(key, value);
    var line := key + ": " + value;
    assert raw == BLANKS + line;
    NoComment(raw);
    TrimSpaceBlanks(BLANKS, line);
    FirstIndexIs(line, ':', |key|);
    assert line == key + ":" + (" " + value);
    TrimSpaceTrims(key);
    TrimSpaceBlanks(" ", value);
    ReadParts(raw, line, key, " " + value);
  }

  predicate Blank(s: string) { forall c | c in s :: IsSpace(c) }

  /** A key without its colon, as it may be written: trimmed, in any case. */
  predicate WrittenKey(key: string) { key != "" && Trimmed(key) && ':' !in key && '#' !in key }

  /** Nothing, or a comment. */
  predicate Rest(s: string) { s == "" || s[0] == '#' }

  lemma CutComment(line: string, rest: string)
    requires '#' !in line && Rest(rest)
    ensures StripComment(line + rest) == line
  {
    FirstIndexIs(line + rest, '#', |line|);
  }

  /** Blanks around key and value, the case of the key and a comment behind the value make no difference. */
  lemma LineIsRead(before: string, key: string, mid: string, gap: string, value: string, after: string, rest: string)
    requires Blank(before) && Blank(mid) && Blank(gap) && Blank(after) && Rest(rest)
    requires WrittenKey(key) && value != "" && Trimmed(value) && '#' !in value
    ensures ReadLine(before + (key + mid + ":" + gap + value) + after + rest) ==
            Holds(KV(ToLower(key), Unquote(value)))
  {
    hide TrimSpace, ToLower, Unquote, StripComment, FirstIndex;
    var core := key + mid + ":" + gap + value;
    BlankHasNo(before);
    BlankHasNo(mid);
    BlankHasNo(gap);
    BlankHasNo(after);
    assert '#' !in before + core + after;
    CutComment(before + core + after, rest);
    assert core[0] == key[0] && core[|core| - 1] == value[|value| - 1];
    TrimSpaceBoth(before, core, after);
    var k := |key| + |mid|;
    assert core[..k] == key + mid && core[k] == ':' && core[k + 1..] == gap + value;
    FirstIndexIs(core, ':', k);
    TrimSpaceBoth("", key, mid);
    assert "" + key + mid == key + mid;
    TrimSpaceBoth(gap, value, "");
    assert gap + value + "" == gap + value;
  }

  lemma BlankHasNo(s: string)
    requires Blank(s)
    ensures '#' !in s && ':' !in s
  {
    assert !IsSpace('#') && !IsSpace(':');
  }

  /** A key with nothing but blanks behind its colon opens a clause. */
  lemma HeaderIsRead(before: string, key: string, mid: string, after: string, rest: string)
    requires Blank(before) && Blank(mid) && Blank(after) && Rest(rest) && WrittenKey(key)
    ensures ReadLine(before + (key + mid + ":") + after + rest) == Opens(ToLower(key))
  {
    hide TrimSpace, ToLower, StripComment, FirstIndex;
    var core := key + mid + ":";
    BlankHasNo(before);
    BlankHasNo(mid);
    BlankHasNo(after);
    assert '#' !in before + core + after;
    CutComment(before + core + after, rest);
    assert core[0] == key[0] && core[|core| - 1] == ':';
    TrimSpaceBoth(before, core, after);
    var k := |key| + |mid|;
    assert core[..k] == key + mid && core[k] == ':' && core[k + 1..] == "";
    FirstIndexIs(core, ':', k);
    TrimSpaceBoth("", key, mid);
    assert "" + key + mid == key + mid;
    TrimSpaceTrims("");
  }

  /** A line without a colon before its comment says nothing. */
  lemma OtherLinesSayNothing(line: string, rest: string)
    requires '#' !in line && ':' !in line && Rest(rest)
    ensures ReadLine(line + rest) == Nothing
  {
    hide TrimSpace, StripComment;
    CutComment(line, rest);
    var front := TrimLeftSplits(line);
    var back := TrimRightSplits(TrimLeft(line));
    assert TrimSpace(line) == TrimRight(TrimLeft(line)) by { UnfoldTrim(line); }
    assert forall c | c in TrimSpace(line) :: c in front + (TrimSpace(line) + back);
    FirstIndexIs(TrimSpace(line), ':', |TrimSpace(line)|);
  }

  lemma UnfoldTrim(s: string)
    ensures TrimSpace(s) == TrimRight(TrimLeft(s))
  {
  }

  // ---------- quoted values ----------

  predicate SafeText(s: string) { NeedsNoEscape(s) && '#' !in s }

  lemma QuoteSafe(s: string)
    requires SafeText(s)
    ensures Quote(s) == "\"" + s + "\""
    ensures CleanValue(Quote(s)) && Unquote(Quote(s)) == s
  {
    EscapePlain(s);
    assert ("\"" + s + "\"")[1..|s| + 1] == s;
  }

  lemma NameIsSafe(name: string)
    requires forall c | c in name :: IsNameChar(c)
    ensures SafeText(name) && forall c | c in name :: !IsSpace(c)
  {
    forall c | c in name ensures c !in "\"\\\n\r\t" && c != '#' && !IsSpace(c) {
      assert IsNameChar(c);
    }
  }

  // ---------- groups of lines ----------

  /** The lines open no clause, hold exactly these directives, and are single lines. */
  ghost predicate Yields(lines: seq<string>, kvs: seq<KV>) {
    Plain(lines) && LineKVs(lines) == kvs && forall l | l in lines :: '\n' !in l
  }

  lemma YieldsNothing()
    ensures Yields([], [])
  {
  }

  lemma YieldsConcat(a: seq<string>, ka: seq<KV>, b: seq<string>, kb: seq<KV>)
    requires Yields(a, ka) && Yields(b, kb)
    ensures Yields(a + b, ka + kb)
  {
    hide ReadLine;
    FlatConcat(a, b, LineKV);
  }

  lemma YieldsComment(text: string)
    requires '\n' !in text
    ensures Yields([Comment(text)], [])
  {
    ReadComment(text);
    var lines := [Comment(text)];
    assert lines[..0] == [] && LineKV(lines[0]) == [];
    assert forall c | c in Comment(text) :: c in "    # " || c in text;
    assert LineKVs(lines) == Flat([], LineKV) + LineKV(lines[0]);
  }

  lemma YieldsDirective(key: string, value: string)
    requires CleanKey(key) && CleanValue(value)
    ensures Yields([Directive(key, value)], [KV(key, Unquote(value))])
  {
    hide ReadLine;
    ReadDirective(key, value);
    var lines := [Directive(key, value)];
    assert lines[..0] == [];
    assert LineKVs(lines) == Flat([], LineKV) + LineKV(lines[0]);
  }

  /** A comment with its directive. */
  lemma YieldsBoth(text: string, key: string, value: string)
    requires '\n' !in text && CleanKey(key) && CleanValue(value)
    ensures Yields([Comment(text), Directive(key, value)], [KV(key, Unquote(value))])
  {
    hide Comment, Directive, Yields, Unquote;
    YieldsComment(text);
    YieldsDirective(key, value);
    YieldsConcat([Comment(text)], [], [Directive(key, value)], [KV(key, Unquote(value))]);
    assert [Comment(text)] + [Directive(key, value)] == [Comment(text), Directive(key, value)];
    assert [] + [KV(key, Unquote(value))] == [KV(key, Unquote(value))];
  }

  lemma {:induction false} YieldsFlat<T>(xs: seq<T>, lines: T -> seq<string>, kvs: T -> seq<KV>)
    requires forall i | 0 <= i < |xs| :: Yields(lines(xs[i]), kvs(xs[i]))
    ensures Yields(Flat(xs, lines), Flat(xs, kvs))
  {
    hide Yields;
    if xs == [] {
      YieldsNothing();
    } else {
      var n := |xs| - 1;
      YieldsFlat(xs[..n], lines, kvs);
      YieldsConcat(Flat(xs[..n], lines), Flat(xs[..n], kvs), lines(xs[n]), kvs(xs[n]));
    }
  }

  /** Comment texts of one line each. */
  ghost predicate OneLineRemarks(words: Wording) { forall r: Remark :: '\n' !in words(r) }

  // ---------- the directives of each rendered section ----------

  function EntryKV(e: Entry): seq<KV> { [KV(e.key, e.value)] }

  function PrivateKV(d: string): seq<KV> { [KV("private-domain", d)] }

  function OptInKV(zone: ForwardZone): seq<KV> {
    (if zone.allowUnsigned then [KV("domain-insecure", zone.name)] else []) +
    (if zone.allowPrivateAddresses then [KV("private-domain", zone.name)] else [])
  }

  function ZoneValue(name: string, zoneType: string): string { "\"" + name + "\" " + zoneType }

  function ReverseKV(mode: string): string -> seq<KV> {
    (name: string) => [KV("local-zone", ZoneValue(name, ReverseZoneType(mode)))]
  }

  function PolicyKV(policy: ReverseZonePolicy): seq<KV> { Flat(ReverseNames(policy.network), ReverseKV(policy.mode)) }

  function HostKV(zoneName: string): LocalHost -> seq<KV> {
    (host: LocalHost) =>
      (if host.ipv4 != "" then [KV("local-data", DataValue(zoneName, host, "A", host.ipv4))] else []) +
      (if host.ipv6 != "" then [KV("local-data", DataValue(zoneName, host, "AAAA", host.ipv6))] else []) +
      (if host.ptr && host.ipv4 != "" then [KV("local-data-ptr", PtrValue(zoneName, host, host.ipv4))] else []) +
      (if host.ptr && host.ipv6 != "" then [KV("local-data-ptr", PtrValue(zoneName, host, host.ipv6))] else [])
  }

  function LocalKV(zone: LocalZone): seq<KV> {
    [KV("local-zone", ZoneValue(zone.name, "static"))] + Flat(zone.hosts, HostKV(zone.name))
  }

  function ServerKV(server: string): seq<KV> { [KV("forward-addr", server)] }

  function ForwardKV(zone: ForwardZone): seq<KV> {
    [KV("name", zone.name)] + Flat(zone.servers, ServerKV) + [KV("forward-first", YesNo(zone.forwardFirst))]
  }

  function ServerKVs(s: Settings): seq<KV>
    requires ProfileSizes(s.resourceProfile).Some?
  {
    Flat(FixedEntries(s), EntryKV) + Flat(s.privateDomains, PrivateKV) + Flat(s.forwardZones, OptInKV) +
    Flat(s.reverseZones, PolicyKV) + Flat(s.localZones, LocalKV)
  }

  // ---------- hypotheses on literals ----------

  /** Printable ASCII except blanks, quotes, backslashes and comment signs. */
  predicate IsLiteralChar(c: char) { '!' <= c <= '~' && c != '"' && c != '\\' && c != '#' }

  /** Any IPv4 literal and any IPv6 literal, unless it has a zone with other characters. */
  predicate PlainLiteral(literal: string) { literal != "" && forall c | c in literal :: IsLiteralChar(c) }

  ghost predicate PlainLiterals(s: Settings) {
    (forall i, k | 0 <= i < |s.forwardZones| && 0 <= k < |s.forwardZones[i].servers| ::
       PlainLiteral(s.forwardZones[i].servers[k])) &&
    (forall i, k | 0 <= i < |s.localZones| && 0 <= k < |s.localZones[i].hosts| :: PlainHost(s.localZones[i].hosts[k]))
  }

  predicate PlainHost(host: LocalHost) {
    (host.ipv4 != "" ==> PlainLiteral(host.ipv4)) && (host.ipv6 != "" ==> PlainLiteral(host.ipv6))
  }

  lemma AddressIsSafe(literal: string)
    requires PlainLiteral(literal)
    ensures CleanValue(literal) && IsToken(literal) && Unquote(literal) == literal && SafeText(literal)
  {
    forall c | c in literal ensures !IsSpace(c) && c !in "\"\\\n\r\t" && c != '#' { assert IsLiteralChar(c); }
    assert literal[0] in literal && literal[|literal| - 1] in literal;
  }

  /** A literal with a comment sign in its zone is never read back: the line ends there. */
  lemma CommentCutsLiteral(front: string, rest: string)
    requires CleanValue(front)
    ensures ReadLine(Directive("forward-addr", front + "#" + rest)) == Holds(KV("forward-addr", Unquote(front)))
    ensures |Unquote(front)| < |front + "#" + rest|
  {
    var line, cut := Directive("forward-addr", front + "#" + rest), Directive("forward-addr", front);
    assert line == cut + ("#" + rest);
    ForwardAddressLine(front);
    hide *;
    StripsAlike(cut, rest);
    SameReading(line, cut);
  }

  lemma ForwardAddressLine(value: string)
    requires CleanValue(value)
    ensures ReadLine(Directive("forward-addr", value)) == Holds(KV("forward-addr", Unquote(value)))
    ensures '#' !in Directive("forward-addr", value) && |Unquote(value)| <= |value|
  {
    assert CleanKey("forward-addr");
    KeyChars("forward-addr");
    ReadDirective("forward-addr", value);
    hide ReadLine;
  }

  lemma StripsAlike(cut: string, rest: string)
    requires '#' !in cut
    ensures StripComment(cut + ("#" + rest)) == cut == StripComment(cut)
  {
    NoComment(cut);
    FirstIndexIs(cut + ("#" + rest), '#', |cut|);
  }

  lemma SameReading(a: string, b: string)
    requires StripComment(a) == StripComment(b)
    ensures ReadLine(a) == ReadLine(b)
  {
    hide StripComment;
  }

  // ---------- each section yields its directives ----------

  ghost predicate GoodEntry(e: Entry) {
    CleanKey(e.key) && CleanValue(e.value) && Unquote(e.value) == e.value
  }

  lemma EntryYields(words: Wording, e: Entry)
    requires OneLineRemarks(words) && GoodEntry(e)
    ensures Yields(EntryLines(words)(e), EntryKV(e))
  {
    hide Comment, Directive, Yields;
    match e.remark
    case None =>
      YieldsDirective(e.key, e.value);
      assert EntryLines(words)(e) == [Directive(e.key, e.value)];
    case Some(r) =>
      YieldsBoth(words(r), e.key, e.value);
      assert EntryLines(words)(e) == [Comment(words(r)), Directive(e.key, e.value)];
  }

  lemma SimpleValue(v: string)
    requires v != [] && forall c | c in v :: IsLowerAlnum(c) || c == '-'
    ensures CleanValue(v) && Unquote(v) == v
  {
    assert v[0] in v && v[|v| - 1] in v;
  }

  lemma YesNoValue(b: bool)
    ensures CleanValue(YesNo(b)) && Unquote(YesNo(b)) == YesNo(b)
  {
    SimpleValue(YesNo(b));
  }

  lemma NumberValue(n: int)
    requires n >= 0
    ensures CleanValue(Itoa(n)) && Unquote(Itoa(n)) == Itoa(n)
  {
    SimpleValue(Itoa(n));
  }

  lemma PrivateYields(words: Wording, d: string)
    requires OneLineRemarks(words) && ValidZoneName(d)
    ensures Yields(PrivateDomainLines(words)(d), PrivateKV(d))
  {
    hide ValidZoneName, Yields, Comment, Directive, Quote;
    ZoneNameChars(d);
    NameIsSafe(d);
    QuoteSafe(d);
    YieldsBoth(words(OnPrivateDomain), "private-domain", Quote(d));
  }

  lemma OptInYields(words: Wording, zone: ForwardZone)
    requires OneLineRemarks(words) && ValidZoneName(zone.name)
    ensures Yields(OptInLines(words)(zone), OptInKV(zone))
  {
    hide ValidZoneName, Yields, Comment, Directive, Quote;
    ZoneNameChars(zone.name);
    NameIsSafe(zone.name);
    QuoteSafe(zone.name);
    YieldsNothing();
    var quoted := Quote(zone.name);
    YieldsBoth(words(OnUnsigned), "domain-insecure", quoted);
    YieldsBoth(words(OnRebinding), "private-domain", quoted);
    var a := if zone.allowUnsigned then [Comment(words(OnUnsigned)), Directive("domain-insecure", quoted)] else [];
    var ka := if zone.allowUnsigned then [KV("domain-insecure", zone.name)] else [];
    var b := if !zone.allowPrivateAddresses then []
             else [Comment(words(OnRebinding)), Directive("private-domain", quoted)];
    var kb := if zone.allowPrivateAddresses then [KV("private-domain", zone.name)] else [];
    YieldsConcat(a, ka, b, kb);
    assert OptInLines(words)(zone) == a + b && OptInKV(zone) == ka + kb;
  }

  lemma CleanJoin(a: string, b: string)
    requires CleanValue(a) && b != [] && forall c | c in b :: IsLowerAlnum(c)
    ensures CleanValue(a + " " + b) && Unquote(a + " " + b) == a + " " + b
  {
    var v := a + " " + b;
    assert b[|b| - 1] in b && v[|v| - 1] == b[|b| - 1];
    assert forall c | c in v :: c in a || c == ' ' || c in b;
  }

  lemma ZoneValueClean(name: string, zoneType: string)
    requires forall c | c in name :: IsNameChar(c)
    requires zoneType == "static" || zoneType == "transparent"
    ensures Quote(name) + " " + zoneType == ZoneValue(name, zoneType)
    ensures CleanValue(ZoneValue(name, zoneType)) && Unquote(ZoneValue(name, zoneType)) == ZoneValue(name, zoneType)
  {
    hide Quote, CleanValue, Unquote, SafeText;
    NameIsSafe(name);
    QuoteSafe(name);
    CleanJoin(Quote(name), zoneType);
    assert "\"" + name + "\"" + " " == "\"" + name + "\" ";
  }

  lemma ReverseYields(words: Wording, network: string, mode: string, i: nat)
    requires OneLineRemarks(words) && i < |ReverseNames(network)|
    ensures Yields(ReverseNameLines(words, mode)(ReverseNames(network)[i]), ReverseKV(mode)(ReverseNames(network)[i]))
  {
    hide ReverseNames, Yields, Comment, Directive, Quote, ZoneValue;
    var name := ReverseNames(network)[i];
    ReverseNamesApart(network, network, i, i);
    ZoneValueClean(name, ReverseZoneType(mode));
    YieldsBoth(words(OnReverse), "local-zone", ZoneValue(name, ReverseZoneType(mode)));
  }

  lemma PolicyYields(words: Wording, policy: ReverseZonePolicy)
    requires OneLineRemarks(words)
    ensures Yields(PolicyLines(words)(policy), PolicyKV(policy))
  {
    hide ReverseNames, Yields, ReverseNameLines, ReverseKV;
    var names := ReverseNames(policy.network);
    forall i | 0 <= i < |names|
      ensures Yields(ReverseNameLines(words, policy.mode)(names[i]), ReverseKV(policy.mode)(names[i]))
    {
      ReverseYields(words, policy.network, policy.mode, i);
    }
    YieldsFlat(names, ReverseNameLines(words, policy.mode), ReverseKV(policy.mode));
  }

  // ---------- hosts ----------

  ghost predicate GoodHost(host: LocalHost) { ValidHostLabel(host.hostname) && PlainHost(host) }

  lemma SafeConcat(a: string, b: string)
    requires SafeText(a) && SafeText(b)
    ensures SafeText(a + b)
  {
  }

  lemma FqdnIsSafe(zoneName: string, host: LocalHost)
    requires ValidZoneName(zoneName) && ValidHostLabel(host.hostname)
    ensures var fqdn := host.hostname + "." + zoneName; SafeText(fqdn) && IsToken(fqdn)
  {
    hide ValidZoneName, ValidHostLabel;
    ZoneNameChars(zoneName);
    HostLabelChars(host.hostname);
    NameIsSafe(host.hostname + "." + zoneName);
  }

  lemma DataIsSafe(zoneName: string, host: LocalHost, recordType: string, address: string)
    requires ValidZoneName(zoneName) && ValidHostLabel(host.hostname) && PlainLiteral(address)
    requires recordType == "A" || recordType == "AAAA"
    ensures SafeText(DataValue(zoneName, host, recordType, address))
  {
    hide ValidZoneName, ValidHostLabel, SafeText;
    var fqdn := host.hostname + "." + zoneName;
    FqdnIsSafe(zoneName, host);
    AddressIsSafe(address);
    ShortTextsAreSafe();
    SafeConcat(fqdn, " IN ");
    SafeConcat(fqdn + " IN ", recordType);
    SafeConcat(fqdn + " IN " + recordType, " ");
    SafeConcat(fqdn + " IN " + recordType + " ", address);
  }

  lemma ShortTextsAreSafe()
    ensures SafeText(" IN ") && SafeText(" ") && SafeText("A") && SafeText("AAAA")
  {
  }

  lemma PtrIsSafe(zoneName: string, host: LocalHost, address: string)
    requires ValidZoneName(zoneName) && ValidHostLabel(host.hostname) && PlainLiteral(address)
    ensures SafeText(PtrValue(zoneName, host, address))
  {
    hide ValidZoneName, ValidHostLabel, SafeText;
    var fqdn := host.hostname + "." + zoneName;
    FqdnIsSafe(zoneName, host);
    AddressIsSafe(address);
    ShortTextsAreSafe();
    SafePrefix(fqdn, TrimSuffix(fqdn, "."));
    SafeConcat(address, " ");
    SafeConcat(address + " ", TrimSuffix(fqdn, "."));
  }

  lemma SafePrefix(s: string, p: string)
    requires SafeText(s) && p <= s
    ensures SafeText(p)
  {
  }

  /** An optional quoted directive. */
  lemma YieldsOptional(present: bool, key: string, value: string)
    requires CleanKey(key) && (present ==> SafeText(value))
    ensures Yields(if present then [Directive(key, "\"" + value + "\"")] else [],
                   if present then [KV(key, value)] else [])
    ensures present ==> Quote(value) == "\"" + value + "\""
  {
    hide Yields, Directive, SafeText;
    YieldsNothing();
    if present {
      QuoteSafe(value);
      YieldsDirective(key, Quote(value));
    }
  }

  lemma HostYields(zoneName: string, host: LocalHost)
    requires ValidZoneName(zoneName) && GoodHost(host)
    ensures Yields(HostLines(zoneName)(host), HostKV(zoneName)(host))
  {
    hide ValidZoneName, ValidHostLabel, Yields, Directive, DataValue, PtrValue, Quote, SafeText;
    var v4, v6 := host.ipv4 != "", host.ipv6 != "";
    if v4 { DataIsSafe(zoneName, host, "A", host.ipv4); PtrIsSafe(zoneName, host, host.ipv4); }
    if v6 { DataIsSafe(zoneName, host, "AAAA", host.ipv6); PtrIsSafe(zoneName, host, host.ipv6); }
    var d4, d6 := DataValue(zoneName, host, "A", host.ipv4), DataValue(zoneName, host, "AAAA", host.ipv6);
    var p4, p6 := PtrValue(zoneName, host, host.ipv4), PtrValue(zoneName, host, host.ipv6);
    YieldsOptional(v4, "local-data", d4);
    YieldsOptional(v6, "local-data", d6);
    YieldsOptional(host.ptr && v4, "local-data-ptr", p4);
    YieldsOptional(host.ptr && v6, "local-data-ptr", p6);
    var a := if v4 then [Directive("local-data", "\"" + d4 + "\"")] else [];
    var b := if v6 then [Directive("local-data", "\"" + d6 + "\"")] else [];
    var c := if host.ptr && v4 then [Directive("local-data-ptr", "\"" + p4 + "\"")] else [];
    var d := if host.ptr && v6 then [Directive("local-data-ptr", "\"" + p6 + "\"")] else [];
    var ka := if v4 then [KV("local-data", d4)] else [];
    var kb := if v6 then [KV("local-data", d6)] else [];
    var kc := if host.ptr && v4 then [KV("local-data-ptr", p4)] else [];
    var kd := if host.ptr && v6 then [KV("local-data-ptr", p6)] else [];
    YieldsConcat(a, ka, b, kb);
    YieldsConcat(a + b, ka + kb, c, kc);
    YieldsConcat(a + b + c, ka + kb + kc, d, kd);
    assert HostLines(zoneName)(host) == a + b + c + d;
    assert HostKV(zoneName)(host) == ka + kb + kc + kd;
  }

  lemma LocalYields(words: Wording, zone: LocalZone)
    requires OneLineRemarks(words) && ValidZoneName(zone.name)
    requires forall i | 0 <= i < |zone.hosts| :: GoodHost(zone.hosts[i])
    ensures Yields(LocalZoneLines(words)(zone), LocalKV(zone))
  {
    hide ValidZoneName, Yields, Comment, Directive, HostLines, HostKV, Quote, GoodHost, ZoneValue;
    ZoneNameChars(zone.name);
    ZoneValueClean(zone.name, "static");
    assert Quote(zone.name) + " static" == Quote(zone.name) + " " + "static";
    var header := [Comment(words(OnLocalZone)), Directive("local-zone", ZoneValue(zone.name, "static"))];
    YieldsBoth(words(OnLocalZone), "local-zone", ZoneValue(zone.name, "static"));
    forall i | 0 <= i < |zone.hosts|
      ensures Yields(HostLines(zone.name)(zone.hosts[i]), HostKV(zone.name)(zone.hosts[i]))
    {
      HostYields(zone.name, zone.hosts[i]);
    }
    YieldsFlat(zone.hosts, HostLines(zone.name), HostKV(zone.name));
    YieldsConcat(header, [KV("local-zone", ZoneValue(zone.name, "static"))],
                 Flat(zone.hosts, HostLines(zone.name)), Flat(zone.hosts, HostKV(zone.name)));
  }

  lemma ForwardYields(words: Wording, zone: ForwardZone)
    requires OneLineRemarks(words) && ValidZoneName(zone.name)
    requires forall i | 0 <= i < |zone.servers| :: PlainLiteral(zone.servers[i])
    ensures Yields(ForwardBody(words, zone), ForwardKV(zone))
  {
    hide ValidZoneName, Yields, Comment, Directive, Quote, ServerLines, ServerKV;
    ZoneNameChars(zone.name);
    NameIsSafe(zone.name);
    QuoteSafe(zone.name);
    YesNoValue(zone.forwardFirst);
    YieldsBoth(words(OnSuffix), "name", Quote(zone.name));
    YieldsBoth(words(OnFallback), "forward-first", YesNo(zone.forwardFirst));
    forall i | 0 <= i < |zone.servers| ensures Yields(ServerLines(words)(zone.servers[i]), ServerKV(zone.servers[i])) {
      ServerYields(words, zone.servers[i]);
    }
    YieldsFlat(zone.servers, ServerLines(words), ServerKV);
    var a := [Comment(words(OnSuffix)), Directive("name", Quote(zone.name))];
    var c := [Comment(words(OnFallback)), Directive("forward-first", YesNo(zone.forwardFirst))];
    YieldsConcat(a, [KV("name", zone.name)], Flat(zone.servers, ServerLines(words)), Flat(zone.servers, ServerKV));
    YieldsConcat(a + Flat(zone.servers, ServerLines(words)), [KV("name", zone.name)] + Flat(zone.servers, ServerKV),
                 c, [KV("forward-first", YesNo(zone.forwardFirst))]);
  }

  lemma ServerYields(words: Wording, server: string)
    requires OneLineRemarks(words) && PlainLiteral(server)
    ensures Yields(ServerLines(words)(server), ServerKV(server))
  {
    hide Yields, Comment, Directive;
    AddressIsSafe(server);
    YieldsBoth(words(OnUpstream), "forward-addr", server);
  }

  // ---------- the whole text ----------

  ghost predicate GoodEntries(entries: seq<Entry>) { forall i | 0 <= i < |entries| :: GoodEntry(entries[i]) }

  lemma SwitchEntry(remark: Option<Remark>, key: string, b: bool)
    requires CleanKey(key)
    ensures GoodEntry(Entry(remark, key, YesNo(b)))
  {
    YesNoValue(b);
  }

  lemma NumberEntry(remark: Option<Remark>, key: string, n: int)
    requires CleanKey(key) && n >= 0
    ensures GoodEntry(Entry(remark, key, Itoa(n)))
  {
    NumberValue(n);
  }

  lemma CleanSwitchKeys()
    ensures CleanKey("qname-minimisation") && CleanKey("prefetch") && CleanKey("prefetch-key")
    ensures CleanKey("aggressive-nsec") && CleanKey("log-queries") && CleanKey("log-replies")
  {
  }

  lemma CleanNumberKeys()
    ensures CleanKey("edns-buffer-size") && CleanKey("verbosity") && CleanKey("serve-expired")
    ensures CleanKey("serve-expired-ttl") && CleanKey("cache-min-ttl") && CleanKey("cache-max-ttl")
  {
  }

  lemma CleanOtherKeys()
    ensures CleanKey("serve-expired-client-timeout") && CleanKey("num-threads")
  {
  }

  lemma BehaviourEntriesGood(s: Settings)
    requires s.ednsBufferSize >= 0 && s.logVerbosity >= 0
    ensures GoodEntries(BehaviourEntries(s))
  {
    hide GoodEntry, YesNo, Itoa, CleanKey;
    CleanSwitchKeys();
    CleanNumberKeys();
    SwitchEntry(Some(OnQname), "qname-minimisation", s.qnameMinimisation);
    SwitchEntry(Some(OnPrefetch), "prefetch", s.prefetch);
    SwitchEntry(Some(OnPrefetchKey), "prefetch-key", s.prefetchKey);
    SwitchEntry(Some(OnNsec), "aggressive-nsec", s.aggressiveNsec);
    NumberEntry(Some(OnEdns), "edns-buffer-size", s.ednsBufferSize);
    NumberEntry(Some(OnVerbosity), "verbosity", s.logVerbosity);
    NoEntry("log-queries");
    NoEntry("log-replies");
  }

  lemma NoEntry(key: string)
    requires CleanKey(key)
    ensures GoodEntry(Entry(None, key, "no"))
  {
    SwitchEntry(None, key, false);
  }

  lemma CacheEntriesGood(s: Settings)
    requires s.serveExpiredTtl >= 0 && s.serveExpiredClientTimeout >= 0 && s.cacheMinTtl >= 0 && s.cacheMaxTtl >= 0
    requires s.threads >= 0
    ensures GoodEntries(CacheEntries(s))
  {
    hide GoodEntry, YesNo, Itoa, CleanKey;
    CleanNumberKeys();
    CleanOtherKeys();
    SwitchEntry(Some(OnServeExpired), "serve-expired", s.serveExpired);
    NumberEntry(Some(OnExpiredTtl), "serve-expired-ttl", s.serveExpiredTtl);
    NumberEntry(Some(OnExpiredTimeout), "serve-expired-client-timeout", s.serveExpiredClientTimeout);
    NumberEntry(Some(OnMinTtl), "cache-min-ttl", s.cacheMinTtl);
    NumberEntry(Some(OnMaxTtl), "cache-max-ttl", s.cacheMaxTtl);
    NumberEntry(Some(OnThreads), "num-threads", s.threads);
  }

  lemma PresetSizes(profile: string)
    requires ProfileSizes(profile).Some?
    ensures ProfileSizes(profile).value in [CacheSizes("32m", "16m"), CacheSizes("64m", "32m"),
                                            CacheSizes("128m", "64m")]
  {
  }

  lemma SizeEntry(remark: Option<Remark>, key: string, value: string)
    requires CleanKey(key) && value in ["16m", "32m", "64m", "128m"]
    ensures GoodEntry(Entry(remark, key, value))
  {
    assert forall c | c in value :: IsLowerAlnum(c);
    SimpleValue(value);
  }

  lemma ProfileEntriesGood(s: Settings)
    requires ProfileSizes(s.resourceProfile).Some?
    ensures GoodEntries(ProfileEntries(s))
  {
    hide GoodEntry, ProfileSizes;
    PresetSizes(s.resourceProfile);
    var sizes := ProfileSizes(s.resourceProfile).value;
    SizeEntry(Some(OnProfile), "rrset-cache-size", sizes.rrset);
    SizeEntry(None, "msg-cache-size", sizes.message);
  }

  lemma NetworkEntriesGood(s: Settings)
    ensures GoodEntries(NetworkEntries(s))
  {
    hide GoodEntry, YesNo;
    SwitchEntry(Some(OnNetwork), "do-ip4", s.networkMode != IPV6_MODE);
    SwitchEntry(None, "do-ip6", s.networkMode != IPV4_MODE);
    SwitchEntry(None, "prefer-ip6", s.networkMode == IPV6_MODE);
  }

  lemma FixedEntriesGood(ip: Netip, s: Settings)
    requires Valid(ip, s)
    ensures GoodEntries(FixedEntries(s))
  {
    hide GoodEntry, BehaviourEntries, CacheEntries, ProfileEntries, NetworkEntries, ValidForwardZones,
      ValidPrivateDomains, ValidLocalZones, ValidReverseZones;
    BehaviourEntriesGood(s);
    CacheEntriesGood(s);
    ProfileEntriesGood(s);
    NetworkEntriesGood(s);
  }

  function ServerSectionLines(words: Wording, s: Settings): seq<string>
    requires ProfileSizes(s.resourceProfile).Some?
  {
    Flat(FixedEntries(s), EntryLines(words)) + Flat(s.privateDomains, PrivateDomainLines(words)) +
    Flat(s.forwardZones, OptInLines(words)) + Flat(s.reverseZones, PolicyLines(words)) +
    Flat(s.localZones, LocalZoneLines(words))
  }

  ghost predicate FixedGood(s: Settings) {
    ProfileSizes(s.resourceProfile).Some? && GoodEntries(FixedEntries(s))
  }

  ghost predicate ReadableDomains(domains: seq<string>) { forall i | 0 <= i < |domains| :: ValidZoneName(domains[i]) }

  ghost predicate ReadableForwards(zones: seq<ForwardZone>) { forall i | 0 <= i < |zones| :: ReadableForward(zones[i]) }

  ghost predicate ReadableLocals(zones: seq<LocalZone>) { forall i | 0 <= i < |zones| :: ReadableLocal(zones[i]) }

  /** What reading back needs of a valid record. */
  ghost predicate Readable(s: Settings) {
    FixedGood(s) && ReadableDomains(s.privateDomains) && ReadableForwards(s.forwardZones) &&
    ReadableLocals(s.localZones)
  }

  ghost predicate ReadableForward(zone: ForwardZone) {
    ValidZoneName(zone.name) && forall i | 0 <= i < |zone.servers| :: PlainLiteral(zone.servers[i])
  }

  ghost predicate ReadableLocal(zone: LocalZone) {
    ValidZoneName(zone.name) && forall i | 0 <= i < |zone.hosts| :: GoodHost(zone.hosts[i])
  }

  lemma ValidIsReadable(ip: Netip, s: Settings)
    requires Valid(ip, s) && PlainLiterals(s)
    ensures Readable(s)
  {
    hide ValidZoneName, ValidHostLabel, GoodEntries, PlainLiteral;
    FixedEntriesGood(ip, s);
    forall i | 0 <= i < |s.localZones| ensures ReadableLocal(s.localZones[i]) {
      forall k | 0 <= k < |s.localZones[i].hosts| ensures GoodHost(s.localZones[i].hosts[k]) {
        HostAt(s.localZones, i, k);
        assert ValidLocalHost(ip, AllHosts(s.localZones)[|Flat(s.localZones[..i], ZoneHosts)| + k]);
      }
    }
    forall i | 0 <= i < |s.forwardZones| ensures ReadableForward(s.forwardZones[i]) {
      assert ValidForwardZone(ip, s.forwardZones[i]);
    }
  }

  lemma ServerSectionYields(words: Wording, s: Settings)
    requires OneLineRemarks(words) && Readable(s)
    ensures Yields(ServerSectionLines(words, s), ServerKVs(s))
  {
    hide Yields, FixedEntries, EntryLines, PrivateDomainLines, OptInLines, PolicyLines, LocalZoneLines, EntryKV,
      PrivateKV, OptInKV, PolicyKV, LocalKV, GoodEntry, ValidZoneName, GoodHost, PlainLiteral;
    var entries := FixedEntries(s);
    forall i | 0 <= i < |entries| ensures Yields(EntryLines(words)(entries[i]), EntryKV(entries[i])) {
      EntryYields(words, entries[i]);
    }
    YieldsFlat(entries, EntryLines(words), EntryKV);
    forall i | 0 <= i < |s.privateDomains|
      ensures Yields(PrivateDomainLines(words)(s.privateDomains[i]), PrivateKV(s.privateDomains[i]))
    {
      PrivateYields(words, s.privateDomains[i]);
    }
    YieldsFlat(s.privateDomains, PrivateDomainLines(words), PrivateKV);
    forall i | 0 <= i < |s.forwardZones|
      ensures Yields(OptInLines(words)(s.forwardZones[i]), OptInKV(s.forwardZones[i]))
    {
      assert ReadableForward(s.forwardZones[i]);
      OptInYields(words, s.forwardZones[i]);
    }
    YieldsFlat(s.forwardZones, OptInLines(words), OptInKV);
    forall i | 0 <= i < |s.reverseZones|
      ensures Yields(PolicyLines(words)(s.reverseZones[i]), PolicyKV(s.reverseZones[i]))
    {
      PolicyYields(words, s.reverseZones[i]);
    }
    YieldsFlat(s.reverseZones, PolicyLines(words), PolicyKV);
    forall i | 0 <= i < |s.localZones|
      ensures Yields(LocalZoneLines(words)(s.localZones[i]), LocalKV(s.localZones[i]))
    {
      assert ReadableLocal(s.localZones[i]);
      LocalYields(words, s.localZones[i]);
    }
    YieldsFlat(s.localZones, LocalZoneLines(words), LocalKV);
    var a, b := Flat(entries, EntryLines(words)), Flat(s.privateDomains, PrivateDomainLines(words));
    var c, d := Flat(s.forwardZones, OptInLines(words)), Flat(s.reverseZones, PolicyLines(words));
    var ka, kb := Flat(entries, EntryKV), Flat(s.privateDomains, PrivateKV);
    var kc, kd := Flat(s.forwardZones, OptInKV), Flat(s.reverseZones, PolicyKV);
    YieldsConcat(a, ka, b, kb);
    YieldsConcat(a + b, ka + kb, c, kc);
    YieldsConcat(a + b + c, ka + kb + kc, d, kd);
    YieldsConcat(a + b + c + d, ka + kb + kc + kd, Flat(s.localZones, LocalZoneLines(words)),
                 Flat(s.localZones, LocalKV));
  }

  /** One block per forward zone, each stating its zone. */
  ghost predicate StatesZones(blocks: seq<ParsedBlock>, zones: seq<ForwardZone>) {
    |blocks| == |zones| &&
    forall i | 0 <= i < |zones| ::
      blocks[i].section == "forward-zone" && KVs(blocks[i].directives) == ForwardKV(zones[i])
  }

  /** One server block with the settings' directives, then the forward zones. */
  ghost predicate StatesSettings(blocks: seq<ParsedBlock>, s: Settings) {
    ProfileSizes(s.resourceProfile).Some? &&
    |blocks| > 0 && blocks[0].section == "server" && KVs(blocks[0].directives) == ServerKVs(s) &&
    StatesZones(blocks[1..], s.forwardZones)
  }

  lemma YieldsMeans(lines: seq<string>, kvs: seq<KV>)
    requires Yields(lines, kvs)
    ensures Plain(lines) && LineKVs(lines) == kvs && SingleLines(lines)
  {
    hide ReadLine;
  }

  ghost predicate SingleLines(lines: seq<string>) { forall l | l in lines :: '\n' !in l }

  lemma SingleConcat(a: seq<string>, b: seq<string>)
    requires SingleLines(a) && SingleLines(b)
    ensures SingleLines(a + b)
  {
  }

  lemma KVsOfAppend(block: ParsedBlock, lines: seq<string>, kvs: seq<KV>, n: nat)
    requires LineKVs(lines) == kvs && block.directives == []
    ensures KVs((block.(directives := block.directives + LineDirectives(lines, n))).directives) == kvs
  {
    hide LineKVs, LineDirectives;
    LineDirectivesKVs(lines, n);
    assert block.directives + LineDirectives(lines, n) == LineDirectives(lines, n);
  }

  lemma SkipLine(line: string, rest: seq<string>, n: nat, current: ParsedBlock)
    requires ReadLine(line) == Nothing
    ensures BlocksFrom([line] + rest, n, current) == BlocksFrom(rest, n + 1, current)
  {
    hide ReadLine;
    assert ([line] + rest)[1..] == rest && ([line] + rest)[0] == line;
  }

  lemma OpenLine(line: string, section: string, rest: seq<string>, n: nat, current: ParsedBlock)
    requires ReadLine(line) == Opens(section)
    ensures BlocksFrom([line] + rest, n, current) ==
            Flush(current) + BlocksFrom(rest, n + 1, ParsedBlock(section, n, []))
  {
    hide ReadLine, Flush;
    assert ([line] + rest)[1..] == rest && ([line] + rest)[0] == line;
  }

  lemma ReadEmptyAndHeading(text: string)
    ensures ReadLine("") == Nothing && ReadLine("# " + text) == Nothing
  {
    hide ReadLine;
    ReadBlankLine("", "");
    assert "" + "" == "";
    ReadBlankLine("", "# " + text);
    assert "" + ("# " + text) == "# " + text;
  }

  lemma ReadClauses()
    ensures ReadLine("forward-zone:") == Opens("forward-zone") && ReadLine("server:") == Opens("server")
  {
    hide ReadLine;
    ReadOpening("forward-zone");
    assert "forward-zone" + ":" == "forward-zone:";
    ReadOpening("server");
    assert "server" + ":" == "server:";
  }

  lemma BlankLines(words: Wording, n: nat, rest: seq<string>, current: ParsedBlock)
    ensures BlocksFrom(["", "# " + words(OnForwarding), "forward-zone:"] + rest, n, current) ==
            Flush(current) + BlocksFrom(rest, n + 3, ParsedBlock("forward-zone", n + 2, []))
  {
    hide ReadLine, Flush, BlocksFrom;
    var heading := "# " + words(OnForwarding);
    ReadEmptyAndHeading(words(OnForwarding));
    ReadClauses();
    OpenLine("forward-zone:", "forward-zone", rest, n + 2, current);
    SkipLine(heading, ["forward-zone:"] + rest, n + 1, current);
    SkipLine("", [heading] + (["forward-zone:"] + rest), n, current);
    assert ["", heading, "forward-zone:"] + rest == [""] + ([heading] + (["forward-zone:"] + rest));
  }

  /** Parsing the forward-zone sections, after which only the empty last line follows. */
  lemma {:induction false} ForwardSections(words: Wording, zones: seq<ForwardZone>, n: nat, current: ParsedBlock)
    requires OneLineRemarks(words) && ReadableForwards(zones)
    requires current.directives != [] || current.section != "server"
    ensures var blocks := BlocksFrom(Flat(zones, ForwardZoneLines(words)) + [""], n, current);
            |blocks| > 0 && blocks[0] == current && StatesZones(blocks[1..], zones)
    decreases |zones|
  {
    hide ReadLine, ForwardBody, ReadableForward, ForwardKV, BlocksFrom, Yields, StatesZones, KVs, LineDirectives,
      LineKVs, ForwardZoneLines, Plain, SingleLines;
    var lines := Flat(zones, ForwardZoneLines(words)) + [""];
    if zones == [] {
      ReadEmptyAndHeading("");
      SkipLine("", [], n, current);
      assert lines == [""] + [];
      NoLines(n + 1, current);
      NoZones();
      assert [current][1..] == [];
    } else {
      var zone := zones[0];
      var body := ForwardBody(words, zone);
      var rest := Flat(zones[1..], ForwardZoneLines(words)) + [""];
      ForwardLinesSplit(words, zones);
      BlankLines(words, n, body + rest, current);
      var block := ParsedBlock("forward-zone", n + 2, []);
      ZoneSectionYields(words, zone);
      YieldsMeans(body, ForwardKV(zone));
      BlocksFromPlain(body, rest, n + 3, block);
      var full := block.(directives := block.directives + LineDirectives(body, n + 3));
      KVsOfAppend(block, body, ForwardKV(zone), n + 3);
      ForwardSections(words, zones[1..], n + 3 + |body|, full);
      var tail := BlocksFrom(rest, n + 3 + |body|, full);
      assert BlocksFrom(lines, n, current) == [current] + tail;
      assert ([current] + tail)[1..] == tail;
      StatesMore(tail, zones);
    }
  }

  lemma ForwardLinesSplit(words: Wording, zones: seq<ForwardZone>)
    requires zones != []
    ensures Flat(zones, ForwardZoneLines(words)) + [""] ==
            ["", "# " + words(OnForwarding), "forward-zone:"] +
            (ForwardBody(words, zones[0]) + (Flat(zones[1..], ForwardZoneLines(words)) + [""]))
  {
    hide ForwardBody;
    FlatHead(zones, ForwardZoneLines(words));
  }

  lemma NoLines(n: nat, current: ParsedBlock)
    requires current.directives != [] || current.section != "server"
    ensures BlocksFrom([], n, current) == [current]
  {
  }

  lemma NoZones()
    ensures StatesZones([], [])
  {
  }

  lemma StatesMore(blocks: seq<ParsedBlock>, zones: seq<ForwardZone>)
    requires blocks != [] && zones != [] && StatesZones(blocks[1..], zones[1..])
    requires blocks[0].section == "forward-zone" && KVs(blocks[0].directives) == ForwardKV(zones[0])
    ensures StatesZones(blocks, zones)
  {
    hide KVs, ForwardKV;
    forall i | 0 <= i < |zones|
      ensures blocks[i].section == "forward-zone" && KVs(blocks[i].directives) == ForwardKV(zones[i])
    {
      if i > 0 {
        assert blocks[1..][i - 1] == blocks[i] && zones[1..][i - 1] == zones[i];
      }
    }
  }

  lemma ZoneSectionYields(words: Wording, zone: ForwardZone)
    requires OneLineRemarks(words) && ReadableForward(zone)
    ensures Yields(ForwardBody(words, zone), ForwardKV(zone))
  {
    hide Yields, ForwardBody, ForwardKV, ValidZoneName, PlainLiteral;
    ForwardYields(words, zone);
  }

  lemma {:induction false} FlatSingle<T>(xs: seq<T>, f: T -> seq<string>)
    requires forall i | 0 <= i < |xs| :: SingleLines(f(xs[i]))
    ensures SingleLines(Flat(xs, f))
  {
    if xs != [] {
      var n := |xs| - 1;
      FlatSingle(xs[..n], f);
      SingleConcat(Flat(xs[..n], f), f(xs[n]));
    }
  }

  lemma HeadingsAreSingle(words: Wording)
    requires OneLineRemarks(words)
    ensures SingleLines(["", "# " + words(OnForwarding), "forward-zone:"]) && SingleLines(HeadLines(words))
  {
  }

  lemma ForwardLinesAreSingle(words: Wording, zone: ForwardZone)
    requires OneLineRemarks(words) && ReadableForward(zone)
    ensures SingleLines(ForwardZoneLines(words)(zone))
  {
    hide ForwardBody, ForwardKV, ReadableForward, Yields, SingleLines;
    ZoneSectionYields(words, zone);
    YieldsMeans(ForwardBody(words, zone), ForwardKV(zone));
    HeadingsAreSingle(words);
    SingleConcat(["", "# " + words(OnForwarding), "forward-zone:"], ForwardBody(words, zone));
  }

  lemma RenderedSingle(words: Wording, s: Settings)
    requires ProfileSizes(s.resourceProfile).Some? && OneLineRemarks(words)
    requires ReadableForwards(s.forwardZones) && SingleLines(ServerSectionLines(words, s))
    ensures SingleLines(RenderedLines(words, s))
  {
    hide ServerSectionLines, ForwardZoneLines, SingleLines, RenderedLines, HeadLines, ProfileSizes, ReadableForward;
    forall i | 0 <= i < |s.forwardZones| ensures SingleLines(ForwardZoneLines(words)(s.forwardZones[i])) {
      ForwardLinesAreSingle(words, s.forwardZones[i]);
    }
    FlatSingle(s.forwardZones, ForwardZoneLines(words));
    RenderedParts(words, s);
    HeadingsAreSingle(words);
    SingleConcat(HeadLines(words), ServerSectionLines(words, s));
    SingleConcat(HeadLines(words) + ServerSectionLines(words, s), Flat(s.forwardZones, ForwardZoneLines(words)));
  }

  lemma RenderedParts(words: Wording, s: Settings)
    requires ProfileSizes(s.resourceProfile).Some?
    ensures RenderedLines(words, s) ==
            HeadLines(words) + ServerSectionLines(words, s) + Flat(s.forwardZones, ForwardZoneLines(words))
  {
    hide FixedEntries, EntryLines, PrivateDomainLines, OptInLines, PolicyLines, LocalZoneLines, ForwardZoneLines,
      HeadLines;
  }

  /** Parsing the rendered text gives back the directives that state the settings. */
  lemma BlocksOfRendered(ip: Netip, words: Wording, s: Settings)
    requires OneLineRemarks(words) && Valid(ip, s) && PlainLiterals(s)
    ensures Rendered(ip, words, s).Some?
    ensures StatesSettings(Blocks(Rendered(ip, words, s).value), s)
  {
    hide Valid, Readable, ServerSectionLines, ServerKVs, RenderedLines, ReadLine, StatesZones, ReadableForward,
      BlocksFrom, Yields, KVs, LineDirectives, SplitLines, JoinLines, LineKVs, ForwardZoneLines, PlainLiterals;
    ValidIsReadable(ip, s);
    ReadableProfile(s);
    RenderedParts(words, s);
    ServerSectionYields(words, s);
    var generated := "# " + words(Generated);
    var section, zones := ServerSectionLines(words, s), Flat(s.forwardZones, ForwardZoneLines(words));
    YieldsMeans(section, ServerKVs(s));
    RenderedSingle(words, s);
    SplitOfJoin(RenderedLines(words, s));
    var rest := section + (zones + [""]);
    assert RenderedLines(words, s) + [""] == [generated] + (["server:"] + rest);
    ReadEmptyAndHeading(words(Generated));
    ReadClauses();
    SkipLine(generated, ["server:"] + rest, 1, IMPLICIT_SERVER);
    OpenLine("server:", "server", rest, 2, IMPLICIT_SERVER);
    var block := ParsedBlock("server", 2, []);
    BlocksFromPlain(section, zones + [""], 3, block);
    var full := block.(directives := block.directives + LineDirectives(section, 3));
    KVsOfAppend(block, section, ServerKVs(s), 3);
    ServerKVsNotEmpty(s);
    NotEmpty(full.directives);
    ForwardSections(words, s.forwardZones, 3 + |section|, full);
    var blocks := BlocksFrom(rest, 3, block);
    assert BlocksFrom(RenderedLines(words, s) + [""], 1, IMPLICIT_SERVER) == [] + blocks;
    assert [] + blocks == blocks;
    assert Rendered(ip, words, s).value == JoinLines(RenderedLines(words, s));
  }

  lemma NotEmpty(directives: seq<ParsedDirective>)
    ensures KVs(directives) != [] ==> directives != []
  {
  }

  lemma ReadableProfile(s: Settings)
    requires Readable(s)
    ensures ProfileSizes(s.resourceProfile).Some?
    ensures ReadableForwards(s.forwardZones)
  {
  }

  lemma ServerKVsNotEmpty(s: Settings)
    requires ProfileSizes(s.resourceProfile).Some?
    ensures ServerKVs(s) != []
  {
    var entries := FixedEntries(s);
    assert Flat(entries, EntryKV) == Flat(entries[..|entries| - 1], EntryKV) + EntryKV(entries[|entries| - 1]);
  }
}
