/**
  The expert configuration text (custom.go:104-338): its normalisation, the lines it refuses, and the
  conflicts with guided settings.
 */
module UnboundCustom {
  import opened Text
  import opened UnboundSettings
  import opened UnboundParse
  import opened UnboundExtract
  import opened UnboundImport
  import opened Addresses
  import opened UnboundAccessControl
  import opened UnboundVerdicts

  // ---------- lines ----------

  function DirectiveKey(line: string): string {
    var text := TrimSpace(StripComment(line));
    var i := FirstIndex(text, ':');
    if i == |text| then "" else ToLower(TrimSpace(text[..i]))
  }

  function StripQuotes(value: string): string {
    if |value| >= 2 && value[0] == value[|value| - 1] && value[0] in "\"'" then value[1..|value| - 1] else value
  }

  function DirectiveValue(line: string): string {
    var text := TrimSpace(StripComment(line));
    var i := FirstIndex(text, ':');
    if i == |text| then "" else StripQuotes(TrimSpace(text[i + 1..]))
  }

  /** The line may not appear in expert text. */
  ghost predicate Refused(parse: RangeParser, line: string) {
    DirectiveKey(line) in BLOCKED_DIRECTIVES ||
    (DirectiveKey(line) == "harden-dnssec-stripped" && ToLower(DirectiveValue(line)) != "yes") ||
    (DirectiveKey(line) == "access-control" && GrantsNonPrivate(parse, DirectiveValue(line)))
  }

  // ---------- normalisation ----------

  /** `strings.ReplaceAll(s, "\r\n", "\n")`. */
  function UnixLines(s: string): string {
    if |s| >= 2 && s[0] == '\r' && s[1] == '\n' then ['\n'] + UnixLines(s[2..])
    else if s == [] then [] else [s[0]] + UnixLines(s[1..])
  }

  predicate IsTail(c: char) { c == ' ' || c == '\t' || c == '\n' }

  function TrimTail(s: string): (r: string)
    ensures r <= s
    ensures r != [] ==> !IsTail(r[|r| - 1])
  {
    if s != [] && IsTail(s[|s| - 1]) then TrimTail(s[..|s| - 1]) else s
  }

  function Cleaned(content: string): string {
    var body := TrimTail(UnixLines(content));
    if body == "" then "" else body + "\n"
  }

  ghost predicate Acceptable(parse: RangeParser, text: string) {
    forall line | line in SplitLines(text) :: !Refused(parse, line)
  }

  /** `normalizeCustom`: the text that is stored, or a refusal. */
  ghost function Normalized(parse: RangeParser, content: string): Option<string> {
    if ByteLength(content) > MAX_CUSTOM_CONFIG_BYTES || '\0' in content ||
      !Acceptable(parse, Cleaned(content)) then None
    else Some(Cleaned(content))
  }

  method NormalizeCustom(parse: RangeParser, content: string) returns (r: Option<string>)
    requires ParsesWell(parse)
    ensures r == Normalized(parse, content)
  {
    hide ByteLength, Cleaned, SplitLines, DirectiveKey, DirectiveValue, GrantsNonPrivate, ToLower, BLOCKED_DIRECTIVES;
    if ByteLength(content) > MAX_CUSTOM_CONFIG_BYTES {
      return None;
    }
    if '\0' in content {
      return None;
    }
    var text := Cleaned(content);
    var lines := SplitLines(text);
    for i := 0 to |lines|
      invariant forall j | 0 <= j < i :: !Refused(parse, lines[j])
    {
      var key := DirectiveKey(lines[i]);
      if key in BLOCKED_DIRECTIVES {
        assert lines[i] in lines;
        return None;
      }
      if key == "harden-dnssec-stripped" && ToLower(DirectiveValue(lines[i])) != "yes" {
        assert lines[i] in lines;
        return None;
      }
      if key == "access-control" {
        var grants := AccessControlGrantsNonPrivateAccess(parse, DirectiveValue(lines[i]));
        if grants {
          assert lines[i] in lines;
          return None;
        }
      }
    }
    return Some(text);
  }

  // ---------- when normalising again changes nothing ----------

  ghost predicate HasCrlf(s: string) { exists i | 0 <= i < |s| - 1 :: s[i] == '\r' && s[i + 1] == '\n' }

  lemma {:induction false} UnixLinesFixes(s: string)
    ensures |UnixLines(s)| <= |s| && (UnixLines(s) == s <==> !HasCrlf(s))
    ensures HasCrlf(s) ==> |UnixLines(s)| < |s|
    decreases |s|
  {
    if |s| >= 2 && s[0] == '\r' && s[1] == '\n' {
      UnixLinesFixes(s[2..]);
    } else if s != [] {
      var rest := s[1..];
      UnixLinesFixes(rest);
      if HasCrlf(s) {
        var i :| 0 <= i < |s| - 1 && s[i] == '\r' && s[i + 1] == '\n';
        assert rest[i - 1] == '\r' && rest[i] == '\n';
      }
      if i :| 0 <= i < |rest| - 1 && rest[i] == '\r' && rest[i + 1] == '\n' {
        assert s[i + 1] == '\r' && s[i + 2] == '\n';
      }
      assert s == [s[0]] + rest;
    }
  }

  lemma TrimTailOfLine(body: string)
    requires body != [] && !IsTail(body[|body| - 1])
    ensures TrimTail(body + "\n") == body
  {
    assert (body + "\n")[..|body|] == body;
    assert TrimTail(body) == body;
  }

  /** What normalisation can return: nothing, or a line-terminated text without trailing blanks. */
  lemma CleanedShape(content: string)
    ensures var t := Cleaned(content);
            t == "" || (|t| >= 2 && t[|t| - 1] == '\n' && !IsTail(t[|t| - 2]))
  {
  }

  lemma CleanedTwice(content: string)
    ensures var t := Cleaned(content); Cleaned(t) == t <==> !HasCrlf(t)
  {
    hide TrimTail;
    var t := Cleaned(content);
    CleanedShape(content);
    UnixLinesFixes(t);
    if t != "" {
      var body := t[..|t| - 1];
      assert t == body + "\n";
      if HasCrlf(t) {
        UnixLinesEnd(t);
        TrimTailLength(UnixLines(t));
      } else {
        TrimTailOfLine(body);
      }
    }
  }

  /** The text kept is shorter by a line end at least, whenever there is one. */
  lemma TrimTailLength(s: string)
    ensures |TrimTail(s)| <= |s|
    ensures s != [] && s[|s| - 1] == '\n' ==> |TrimTail(s)| < |s|
  {
  }

  lemma {:induction false} UnixLinesEnd(s: string)
    requires s != [] && s[|s| - 1] == '\n'
    ensures UnixLines(s) != [] && UnixLines(s)[|UnixLines(s)| - 1] == '\n'
    decreases |s|
  {
    if |s| >= 2 && s[0] == '\r' && s[1] == '\n' {
      if |s| > 2 {
        UnixLinesEnd(s[2..]);
      } else {
        assert s[2..] == [];
      }
    } else if |s| > 1 {
      UnixLinesEnd(s[1..]);
    } else {
      assert s[1..] == [];
    }
  }

  lemma CleanedKeepsOut(s: string, c: char)
    requires c !in s && c != '\n'
    ensures c !in UnixLines(s) && c !in Cleaned(s)
  {
    UnixLinesKeepsOut(s, c);
  }

  lemma {:induction false} UnixLinesKeepsOut(s: string, c: char)
    requires c !in s && c != '\n'
    ensures c !in UnixLines(s)
    decreases |s|
  {
    if |s| >= 2 && s[0] == '\r' && s[1] == '\n' {
      UnixLinesKeepsOut(s[2..], c);
    } else if s != [] {
      UnixLinesKeepsOut(s[1..], c);
    }
  }

  /**
    Stored text is accepted again unchanged if and only if no carriage return is left before a line end and
    the added line end did not push it over the limit.
   */
  lemma NormalizeAgain(parse: RangeParser, content: string)
    requires Normalized(parse, content).Some?
    ensures var t := Normalized(parse, content).value;
            Normalized(parse, t) == Some(t) <==> !HasCrlf(t) && ByteLength(t) <= MAX_CUSTOM_CONFIG_BYTES
  {
    hide UnixLines, TrimTail, Refused, ByteLength, HasCrlf;
    CleanedTwice(content);
    CleanedKeepsOut(content, '\0');
  }

  /** Text of exactly the limit without a final line end is accepted once, and what is stored never again. */
  lemma FullTextRefusedLater(parse: RangeParser, content: string)
    requires Normalized(parse, content).Some? && ByteLength(content) == MAX_CUSTOM_CONFIG_BYTES
    requires !HasCrlf(content) && content != "" && !IsTail(content[|content| - 1])
    ensures Normalized(parse, Normalized(parse, content).value).None?
  {
    hide Acceptable, HasCrlf;
    UnixLinesFixes(content);
    assert TrimTail(content) == content;
    ByteLengthConcat(content, "\n");
    assert ByteLength("\n") == 1 + ByteLength("\n"[1..]) == 1;
  }

  /** A comment ending in a bare carriage return is stored with it, and changes when stored again. */
  lemma CarriageReturnKept(parse: RangeParser)
    ensures Normalized(parse, "#\r") == Some("#\r\n") && Normalized(parse, "#\r\n") == Some("#\n")
  {
    var a, b := "#\r\n", "#\n";
    assert "#\r"[1..] == "\r" && "\r"[1..] == "" && UnixLines("\r") == "\r" && UnixLines("#\r") == "#\r";
    assert a[1..] == "\r\n" && a[1..][2..] == "" && UnixLines("\r\n") == "\n" && UnixLines(a) == b;
    assert b[..1] == "#" && TrimTail(b) == TrimTail("#") == "#";
    assert Cleaned("#\r") == a && Cleaned(a) == b;
    ShortComments(parse);
  }

  lemma ShortComments(parse: RangeParser)
    ensures Acceptable(parse, "#\r\n") && Acceptable(parse, "#\n")
    ensures ByteLength("#\r") == 2 && ByteLength("#\r\n") == 3
  {
    hide SplitLines, DirectiveKey, ByteLength, Refused;
    ShortLengths();
    ShortLines();
    CommentKey("\r");
    CommentKey("");
    assert "#" + "\r" == "#\r" && "#" + "" == "#";
    NoKeyAccepted(parse, "#\r");
    NoKeyAccepted(parse, "#");
    NoKeyAccepted(parse, "");
  }

  lemma ShortLengths()
    ensures ByteLength("#\r") == 2 && ByteLength("#\r\n") == 3
  {
    ByteLengthConcat("#", "\r");
    ByteLengthConcat("#\r", "\n");
    assert "#" + "\r" == "#\r" && "#\r" + "\n" == "#\r\n";
    assert ByteLength("#") == 1 + ByteLength("#"[1..]) && ByteLength("\r") == 1 + ByteLength("\r"[1..]);
    assert ByteLength("\n") == 1 + ByteLength("\n"[1..]);
  }

  lemma ShortLines()
    ensures SplitLines("#\r\n") == ["#\r", ""] && SplitLines("#\n") == ["#", ""]
  {
    OneLine("#\r");
    OneLine("#");
    assert "#\r" + "\n" == "#\r\n" && "#" + "\n" == "#\n";
  }

  lemma OneLine(line: string)
    requires '\n' !in line
    ensures SplitLines(line + "\n") == [line, ""]
  {
    FirstIndexIs(line + "\n", '\n', |line|);
    assert (line + "\n")[..|line|] == line && (line + "\n")[|line| + 1..] == "";
    assert SplitOn("", '\n') == [""];
  }

  lemma CommentKey(rest: string)
    ensures DirectiveKey("#" + rest) == "" && DirectiveKey("") == ""
  {
    assert StripComment("#" + rest) == "" && StripComment("") == "";
  }

  lemma BlockedHaveNames()
    ensures "" !in BLOCKED_DIRECTIVES
  {
    assert "" !in BLOCKED_FILES && "" !in BLOCKED_CONTROL && "" !in BLOCKED_TRUST;
    assert "" !in BLOCKED_BEHAVIOUR && "" !in BLOCKED_CACHE;
  }

  lemma NoKeyAccepted(parse: RangeParser, line: string)
    requires DirectiveKey(line) == ""
    ensures !Refused(parse, line)
  {
    BlockedHaveNames();
    hide DirectiveKey, DirectiveValue, GrantsNonPrivate, ToLower, BLOCKED_DIRECTIVES;
  }

  // ---------- what the importer hands to the expert editor ----------

  lemma {:induction false} TrimLeftOfBlanks(blanks: string, s: string)
    requires forall c | c in blanks :: IsSpace(c)
    ensures TrimLeft(blanks + s) == TrimLeft(s)
  {
    if blanks == [] {
      assert blanks + s == s;
    } else {
      assert (blanks + s)[1..] == blanks[1..] + s && blanks[0] in blanks;
      TrimLeftOfBlanks(blanks[1..], s);
    }
  }

  lemma {:induction false} TrimRightOfBlanks(s: string, blanks: string)
    requires forall c | c in blanks :: IsSpace(c)
    ensures TrimRight(s + blanks) == TrimRight(s)
  {
    if blanks == [] {
      assert s + blanks == s;
    } else {
      var n := |blanks| - 1;
      assert (s + blanks)[..|s + blanks| - 1] == s + blanks[..n] && blanks[n] in blanks;
      TrimRightOfBlanks(s, blanks[..n]);
    }
  }

  /** Trimming a line first does not change what is left of its comment. */
  lemma StripTrimmed(raw: string)
    ensures TrimSpace(StripComment(TrimSpace(raw))) == TrimSpace(StripComment(raw))
  {
    hide *;
    var front := TrimLeftSplits(raw);
    var back := TrimRightSplits(TrimLeft(raw));
    StripAfterFront(front, TrimLeft(raw));
    StripBeforeBack(TrimRight(TrimLeft(raw)), back);
    SpaceIs(raw);
  }

  lemma SpaceIs(s: string)
    ensures TrimSpace(s) == TrimRight(TrimLeft(s))
  {
  }

  lemma BlanksHoldNoComment(s: string)
    requires forall c | c in s :: IsSpace(c)
    ensures '#' !in s
  {
    assert !IsSpace('#');
  }

  lemma StripIs(s: string, k: nat)
    requires k <= |s| && '#' !in s[..k] && (k < |s| ==> s[k] == '#')
    ensures StripComment(s) == s[..k]
  {
    FirstIndexIs(s, '#', k);
  }

  lemma StripAfterFront(front: string, s: string)
    requires forall c | c in front :: IsSpace(c)
    ensures TrimSpace(StripComment(front + s)) == TrimSpace(StripComment(s))
  {
    hide *;
    var k := FirstIndex(s, '#');
    BlanksHoldNoComment(front);
    assert (front + s)[..|front| + k] == front + s[..k];
    StripIs(front + s, |front| + k);
    StripIs(s, k);
    TrimLeftOfBlanks(front, s[..k]);
    SpaceIs(front + s[..k]);
    SpaceIs(s[..k]);
  }

  lemma StripBeforeBack(s: string, back: string)
    requires forall c | c in back :: IsSpace(c)
    ensures TrimSpace(StripComment(s + back)) == TrimSpace(StripComment(s))
  {
    hide *;
    var k := FirstIndex(s, '#');
    assert (s + back)[..k] == s[..k];
    StripIs(s, k);
    if k < |s| {
      StripIs(s + back, k);
    } else {
      BlanksHoldNoComment(back);
      assert s[..k] == s && (s + back)[..|s| + |back|] == s + back;
      StripIs(s + back, |s| + |back|);
      TrimBothOfBack(s, back);
    }
  }

  lemma TrimBothOfBack(s: string, back: string)
    requires forall c | c in back :: IsSpace(c)
    ensures TrimSpace(s + back) == TrimSpace(s)
  {
    hide *;
    var left := TrimLeft(s);
    var front := TrimLeftSplits(s);
    assert s + back == front + (left + back);
    TrimLeftOfBlanks(front, left + back);
    SpaceIs(s + back);
    SpaceIs(s);
    if left == [] {
      assert left + back == back && back + "" == back;
      TrimLeftOfBlanks(back, "");
      NothingTrims();
    } else {
      StartsText(left, back);
      TrimRightOfBlanks(left, back);
    }
  }

  lemma NothingTrims()
    ensures TrimLeft("") == ""
  {
  }

  lemma StartsText(s: string, rest: string)
    requires s != [] && !IsSpace(s[0])
    ensures TrimLeft(s + rest) == s + rest
  {
  }

  lemma KeyOfDirectiveLine(line: string, kv: KV)
    requires ReadLine(line) == Holds(kv)
    ensures DirectiveKey(TrimSpace(line)) == kv.key
  {
    hide TrimSpace, FirstIndex, ToLower, StripComment;
    StripTrimmed(line);
  }

  /**
    A server line the importer offers to the expert editor is refused there exactly when it is a
    `domain-insecure` for a name that is no imported forward zone, or an access-control rule that opens the
    resolver: every other blocked directive is reported as blocked by the importer already.
   */
  lemma OfferedLineRefused(parse: RangeParser, names: set<string>, line: string, kv: KV)
    requires ReadLine(line) == Holds(kv) && DispositionOf(names, kv) == Expert
    ensures Refused(parse, TrimSpace(line)) <==>
            kv.key == "domain-insecure" ||
            (kv.key == "access-control" && GrantsNonPrivate(parse, DirectiveValue(TrimSpace(line))))
  {
    KeyOfDirectiveLine(line, kv);
    hide ReadLine, TrimSpace, DirectiveKey, DirectiveValue, GrantsNonPrivate, ToLower, BLOCKED_DIRECTIVES,
      DispositionOf;
    ExpertKeys(names, kv);
  }

  lemma ExpertKeys(names: set<string>, kv: KV)
    requires DispositionOf(names, kv) == Expert
    ensures kv.key == "domain-insecure" <==> kv.key in BLOCKED_DIRECTIVES
    ensures kv.key != "harden-dnssec-stripped"
  {
    hide FieldOf, Parses;
    assert BLOCKED_TRUST[5] == "domain-insecure";
    var fixed := ["hide-identity", "hide-version", "harden-glue", "harden-dnssec-stripped", "harden-below-nxdomain"];
    assert fixed[3] == "harden-dnssec-stripped";
    assert FixedBaseValue("harden-dnssec-stripped").Some?;
  }

  // ---------- conflicts with guided settings ----------

  /** `strings.Contains`. */
  predicate Contained(text: string, part: string) {
    exists i | 0 <= i <= |text| :: HasPrefix(text[i..], part)
  }

  predicate HasDirective(content: string, key: string) {
    exists line | line in SplitLines(content) :: DirectiveKey(line) == key
  }

  predicate HasZoneLine(content: string, zone: string) {
    exists line | line in SplitLines(content) ::
      DirectiveKey(line) == "local-zone" && Contained(line, "\"" + zone + "\"")
  }

  predicate OwnsPrivateDomains(s: Settings) {
    s.privateDomains != [] || exists i | 0 <= i < |s.forwardZones| :: s.forwardZones[i].allowPrivateAddresses
  }

  predicate ReverseClash(content: string, network: string) {
    exists k | 0 <= k < |ReverseNames(network)| :: HasZoneLine(content, ReverseNames(network)[k])
  }

  /** The expert text states nothing the guided settings own. */
  ghost predicate NoConflicts(s: Settings, content: string) {
    (s.forwardZones != [] ==> !HasDirective(content, "forward-zone")) &&
    (OwnsPrivateDomains(s) ==> !HasDirective(content, "private-domain")) &&
    (forall i | 0 <= i < |s.reverseZones| :: !ReverseClash(content, s.reverseZones[i].network)) &&
    (forall i | 0 <= i < |s.localZones| :: !HasZoneLine(content, s.localZones[i].name))
  }

  method ContainsDirective(content: string, key: string) returns (found: bool)
    ensures found <==> HasDirective(content, key)
  {
    hide DirectiveKey, SplitLines;
    var lines := SplitLines(content);
    for i := 0 to |lines|
      invariant forall j | 0 <= j < i :: DirectiveKey(lines[j]) != key
    {
      if DirectiveKey(lines[i]) == key {
        assert lines[i] in lines;
        return true;
      }
    }
    return false;
  }

  method ContainsZoneDirective(content: string, zone: string) returns (found: bool)
    ensures found <==> HasZoneLine(content, zone)
  {
    hide DirectiveKey, SplitLines, Contained;
    var lines := SplitLines(content);
    for i := 0 to |lines|
      invariant forall j | 0 <= j < i ::
                  !(DirectiveKey(lines[j]) == "local-zone" && Contained(lines[j], "\"" + zone + "\""))
    {
      if DirectiveKey(lines[i]) == "local-zone" && Contained(lines[i], "\"" + zone + "\"") {
        assert lines[i] in lines;
        return true;
      }
    }
    return false;
  }

  method ReverseZoneClash(content: string, network: string) returns (clash: bool)
    ensures clash <==> ReverseClash(content, network)
  {
    hide HasZoneLine, ReverseNames;
    var names := ReverseNames(network);
    for k := 0 to |names|
      invariant forall j | 0 <= j < k :: !HasZoneLine(content, names[j])
    {
      var found := ContainsZoneDirective(content, names[k]);
      if found {
        return true;
      }
    }
    return false;
  }

  method ValidateGuidedConflicts(s: Settings, content: string) returns (ok: bool)
    ensures ok <==> NoConflicts(s, content)
  {
    hide HasDirective, HasZoneLine, ReverseClash;
    if |s.forwardZones| > 0 {
      var found := ContainsDirective(content, "forward-zone");
      if found { return false; }
    }
    var owns := |s.privateDomains| > 0;
    for i := 0 to |s.forwardZones|
      invariant owns <==> s.privateDomains != [] || exists j | 0 <= j < i :: s.forwardZones[j].allowPrivateAddresses
    {
      owns := owns || s.forwardZones[i].allowPrivateAddresses;
    }
    if owns {
      var found := ContainsDirective(content, "private-domain");
      if found { return false; }
    }
    for i := 0 to |s.reverseZones|
      invariant forall j | 0 <= j < i :: !ReverseClash(content, s.reverseZones[j].network)
    {
      var clash := ReverseZoneClash(content, s.reverseZones[i].network);
      if clash { return false; }
    }
    for i := 0 to |s.localZones|
      invariant forall j | 0 <= j < i :: !HasZoneLine(content, s.localZones[j].name)
    {
      var found := ContainsZoneDirective(content, s.localZones[i].name);
      if found { return false; }
    }
    return true;
  }

  // ---------- what the two checks keep out ----------

  /** The refused lines, key by key: what the importer closes or guides, and two weakenings by value. */
  lemma RefusedExactly(parse: RangeParser, line: string)
    ensures var key, value := DirectiveKey(line), DirectiveValue(line);
            Refused(parse, line) <==>
            Closed(key) || key in LEFTOVERS || key in TRUST_FILES || key in SWITCHES || key in NUMBERS ||
            key == "domain-insecure" || (key == "harden-dnssec-stripped" && ToLower(value) != "yes") ||
            (key == "access-control" && GrantsNonPrivate(parse, value))
  {
    hide DirectiveKey, DirectiveValue, GrantsNonPrivate, ToLower, Closed;
    BlockedKeys(DirectiveKey(line));
  }

  /** What the parser reads off a line is what the expert editor takes for its key. */
  lemma KeyOfLine(line: string)
    ensures match ReadLine(line)
            case Nothing => true
            case Opens(section) => DirectiveKey(line) == section
            case Holds(kv) => DirectiveKey(line) == kv.key
  {
    hide TrimSpace, StripComment, ToLower, Unquote;
  }

  /**
    Expert text that passes beside forward zones opens no forward-zone clause of its own, and beside private domains
    or private-address opt-ins it states no private domain, in whatever clause.
   */
  lemma NothingStatedTwice(s: Settings, content: string, block: ParsedBlock)
    requires NoConflicts(s, content) && block in Blocks(content)
    ensures s.forwardZones != [] ==> block.section != "forward-zone"
    ensures (s.privateDomains != [] || exists i | 0 <= i < |s.forwardZones| :: s.forwardZones[i].allowPrivateAddresses)
            ==> forall d | d in block.directives :: d.key != "private-domain"
  {
    hide ReadLine, DirectiveKey, Blocks, SplitLines, ReverseClash, HasZoneLine, TrimSpace;
    var lines := SplitLines(content);
    DirectivesStandWhereTheySay(content);
    var open :| PlacedAt(lines, block, open);
    if open > 0 && block.section == "forward-zone" {
      KeyOfLine(lines[open - 1]);
      assert lines[open - 1] in lines;
    }
    forall d | d in block.directives && d.key == "private-domain" ensures HasDirective(content, "private-domain") {
      var i :| 0 <= i < |block.directives| && block.directives[i] == d;
      assert StandsIn(lines, open, block.directives[i]);
      KeyOfLine(lines[d.line - 1]);
      assert lines[d.line - 1] in lines;
    }
  }
}
