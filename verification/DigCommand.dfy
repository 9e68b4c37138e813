/**
  The exec gate of the docker proxy (rootguard-docker-proxy/validate.go:600-726) against the query Core
  builds (forwarding.go:79-83): the name grammar, the argument scanner, and what connects them to the
  settings validator.
 */
module DigCommand {
  import opened Text
  import opened UnboundSettings

  // ---------- the name grammar ----------

  predicate IsAlnum(c: char) { 'a' <= c <= 'z' || 'A' <= c <= 'Z' || '0' <= c <= '9' }

  predicate IsNameInner(c: char) { IsAlnum(c) || c == '-' }

  /** One label of the regular expression: 1 to 63 characters, the outer ones alphanumeric. */
  predicate DigLabel(s: string) {
    0 < |s| <= 63 && IsAlnum(s[0]) && IsAlnum(s[|s| - 1]) && forall i | 0 <= i < |s| :: IsNameInner(s[i])
  }

  /** Labels separated by dots. */
  predicate DigLabels(s: string) {
    var i := FirstIndex(s, '.');
    DigLabel(s[..i]) && (i < |s| ==> DigLabels(s[i + 1..]))
  }

  /** `^\.$|^label(\.label)*\.?$`. */
  predicate DigName(s: string) { s == "." || DigLabels(s) || (HasSuffix(s, ".") && DigLabels(TrimSuffix(s, "."))) }

  // ---------- the settings validator's names are in it ----------

  lemma LabelAccepted(part: string)
    ensures ValidHostLabel(part) <==> DigLabel(part) && part == ToLower(part)
  {
    if DigLabel(part) && part == ToLower(part) {
      forall i | 0 <= i < |part| ensures IsLabelChar(part[i]) {
        assert LowerChar(part[i]) == part[i];
      }
      assert IsLabelChar(part[0]) && IsLabelChar(part[|part| - 1]);
    }
    if ValidHostLabel(part) {
      forall i | 0 <= i < |part| ensures IsNameInner(part[i]) && LowerChar(part[i]) == part[i] {
        assert i == 0 || i == |part| - 1 || IsLabelChar(part[i]);
      }
      assert part == ToLower(part);
    }
  }

  ghost predicate AllLabels(parts: seq<string>) { forall i | 0 <= i < |parts| :: DigLabel(parts[i]) }

  lemma AllLabelsCons(first: string, rest: seq<string>)
    ensures AllLabels([first] + rest) <==> DigLabel(first) && AllLabels(rest)
  {
    hide DigLabel;
    var all := [first] + rest;
    assert all[0] == first;
    forall i | 0 <= i < |rest| ensures all[i + 1] == rest[i] { }
  }

  /** The split used by the settings validator and the grammar's label by label reading agree. */
  lemma {:induction false} SplitMatchesGrammar(s: string)
    ensures AllLabels(SplitOn(s, '.')) <==> DigLabels(s)
  {
    hide DigLabel, AllLabels;
    var i := FirstIndex(s, '.');
    AllLabelsCons(s[..i], []);
    NoLabels();
    if i == |s| {
      assert s[..i] == s && [s] + [] == [s];
    } else {
      SplitMatchesGrammar(s[i + 1..]);
      AllLabelsCons(s[..i], SplitOn(s[i + 1..], '.'));
    }
  }

  lemma NoLabels()
    ensures AllLabels([])
  {
  }

  lemma {:induction false} LowerParts(s: string)
    requires s == ToLower(s)
    ensures forall part | part in SplitOn(s, '.') :: part == ToLower(part)
  {
    var i := FirstIndex(s, '.');
    assert forall k | 0 <= k < |s| :: LowerChar(s[k]) == s[k] by {
      forall k | 0 <= k < |s| ensures LowerChar(s[k]) == s[k] { assert ToLower(s)[k] == LowerChar(s[k]); }
    }
    assert s[..i] == ToLower(s[..i]);
    if i < |s| {
      assert s[i + 1..] == ToLower(s[i + 1..]);
      LowerParts(s[i + 1..]);
    }
  }

  lemma PartsAgree(body: string)
    requires body == ToLower(body)
    ensures (forall part | part in SplitOn(body, '.') :: ValidHostLabel(part)) <==> DigLabels(body)
  {
    hide ValidHostLabel, DigLabel, SplitOn, DigLabels, ToLower;
    SplitMatchesGrammar(body);
    LowerParts(body);
    var parts := SplitOn(body, '.');
    forall i | 0 <= i < |parts| ensures ValidHostLabel(parts[i]) <==> DigLabel(parts[i]) {
      assert parts[i] in parts;
      LabelAccepted(parts[i]);
    }
    if forall part | part in parts :: ValidHostLabel(part) {
      forall i | 0 <= i < |parts| ensures DigLabel(parts[i]) { assert parts[i] in parts; }
    }
  }

  lemma {:induction false} LabelsDoNotEndInDot(s: string)
    requires DigLabels(s)
    ensures s != "" && s[|s| - 1] != '.' && !IsSpace(s[0]) && !IsSpace(s[|s| - 1])
  {
    var i := FirstIndex(s, '.');
    if i < |s| {
      LabelsDoNotEndInDot(s[i + 1..]);
    } else {
      assert s[..i] == s;
    }
  }

  lemma LowerBody(name: string)
    requires HasSuffix(name, ".")
    ensures name == ToLower(name) <==> TrimSuffix(name, ".") == ToLower(TrimSuffix(name, "."))
  {
    var body := TrimSuffix(name, ".");
    assert name == body + ".";
    forall k | 0 <= k < |body| ensures ToLower(name)[k] == ToLower(body)[k] { }
    if body == ToLower(body) {
      assert ToLower(name) == body + ".";
    }
    if name == ToLower(name) {
      assert ToLower(body) == body;
    }
  }

  /**
    The two name languages, exactly: a zone name is valid in the settings if and only if the gate accepts it
    and it is lower case, ends in a dot, is not the root and is at most 254 characters long.
   */
  lemma ZoneNamesExactly(name: string)
    ensures ValidZoneName(name) <==>
            DigName(name) && name == ToLower(name) && HasSuffix(name, ".") && name != "." && |name| <= 254
  {
    hide SplitOn, ToLower, DigLabels, ValidHostLabel;
    if HasSuffix(name, ".") && name != "." {
      var body := TrimSuffix(name, ".");
      assert name == body + ".";
      LowerBody(name);
      if DigLabels(name) {
        LabelsDoNotEndInDot(name);
      }
      if DigLabels(body) {
        LabelsDoNotEndInDot(body);
        TrimSpaceTrims(name);
      }
      if body == ToLower(body) {
        PartsAgree(body);
      }
    }
  }

  // ---------- the argument scanner ----------

  predicate IsNumeric(s: string) { s != "" && forall c | c in s :: IsDigit(c) }

  const DIG_SWITCHES: seq<string> := ["+short", "+dnssec", "+noall", "+comments", "+answer", "+authority"]

  /** `+time=N` and `+tries=N` with one or two digits. */
  predicate IsCount(s: string, key: string) {
    HasPrefix(s, key) && 1 <= |s| - |key| <= 2 && IsNumeric(s[|key|..])
  }

  predicate DigFlag(s: string) { s in DIG_SWITCHES || IsCount(s, "+time=") || IsCount(s, "+tries=") }

  const DIG_TYPES: seq<string> := ["A", "NS", "SOA"]

  /** What the scan has found so far. */
  datatype Scan = Scan(server: string, name: string, qtype: string)

  predicate IsServer(a: string) { HasPrefix(a, "@") && |a| > 1 }

  function ScanOne(s: Scan, a: string): Option<Scan> {
    if DigFlag(a) then Some(s)
    else if a == "-4" || a == "-6" then Some(s)
    else if IsServer(a) then Some(s.(server := a))
    else if a in DIG_TYPES then Some(s.(qtype := a))
    else if s.name == "" && DigName(a) then Some(s.(name := a))
    else None
  }

  /** The whole scan; `-p` takes the next argument with it. */
  function ScanAll(s: Scan, args: seq<string>): Option<Scan>
    decreases |args|
  {
    if args == [] then Some(s)
    else if !DigFlag(args[0]) && args[0] == "-p" then
      if |args| < 2 || !IsNumeric(args[1]) then None else ScanAll(s, args[2..])
    else
      match ScanOne(s, args[0])
      case None => None
      case Some(next) => ScanAll(next, args[1..])
  }

  predicate Accepts(args: seq<string>) {
    match ScanAll(Scan("", "", ""), args)
    case None => false
    case Some(s) => s.server != "" && s.name != "" && s.qtype != ""
  }

  method ValidateUnboundDig(args: seq<string>) returns (ok: bool)
    ensures ok <==> Accepts(args)
  {
    hide DigFlag, DigName, IsNumeric;
    var s := Scan("", "", "");
    var i := 0;
    assert args[0..] == args;
    while i < |args|
      invariant 0 <= i <= |args| && ScanAll(s, args[i..]) == ScanAll(Scan("", "", ""), args)
      decreases |args| - i
    {
      var a := args[i];
      assert args[i..][0] == a && args[i..][1..] == args[i + 1..];
      if DigFlag(a) {
      } else if a == "-4" || a == "-6" {
      } else if a == "-p" {
        i := i + 1;
        if i >= |args| || !IsNumeric(args[i]) {
          return false;
        }
        assert args[i - 1..][1] == args[i] && args[i - 1..][2..] == args[i + 1..];
      } else if IsServer(a) {
        s := s.(server := a);
      } else if a in DIG_TYPES {
        s := s.(qtype := a);
      } else if s.name == "" && DigName(a) {
        s := s.(name := a);
      } else {
        return false;
      }
      i := i + 1;
    }
    return s.server != "" && s.name != "" && s.qtype != "";
  }

  // ---------- what an accepted list is limited to ----------

  /** An output or retry option: six fixed words, or a time or a count of one or two digits. */
  predicate IsOption(a: string) {
    a == "+short" || a == "+dnssec" || a == "+noall" || a == "+comments" || a == "+answer" || a == "+authority" ||
    (HasPrefix(a, "+time=") && 7 <= |a| <= 8 && forall c | c in a[6..] :: '0' <= c <= '9') ||
    (HasPrefix(a, "+tries=") && 8 <= |a| <= 9 && forall c | c in a[7..] :: '0' <= c <= '9')
  }

  predicate IsType(a: string) { a == "A" || a == "NS" || a == "SOA" }

  predicate IsTarget(a: string) { |a| > 1 && a[0] == '@' }

  /** The argument is the number that belongs to a `-p` before it. */
  predicate IsPort(args: seq<string>, i: nat)
    requires i < |args|
  {
    i > 0 && args[i - 1] == "-p"
  }

  /** The argument is one of those that may be there. */
  predicate Fits(args: seq<string>, i: nat)
    requires i < |args|
  {
    var a := args[i];
    if IsPort(args, i) then a != "" && forall c | c in a :: '0' <= c <= '9'
    else
      IsOption(a) || a == "-4" || a == "-6" || (a == "-p" && i + 1 < |args|) || IsTarget(a) || IsType(a) || DigName(a)
  }

  /** The argument is none of the others, and so the name that is asked for. */
  predicate IsQuestion(args: seq<string>, i: nat)
    requires i < |args|
  {
    var a := args[i];
    !IsPort(args, i) && !IsOption(a) && a != "-4" && a != "-6" && a != "-p" && !IsTarget(a) && !IsType(a)
  }

  ghost predicate AllFit(args: seq<string>) { forall i | 0 <= i < |args| :: Fits(args, i) }

  ghost predicate NoQuestion(args: seq<string>) { forall i | 0 <= i < |args| :: !IsQuestion(args, i) }

  ghost predicate OneQuestion(args: seq<string>) {
    forall i, j | 0 <= i < j < |args| :: !(IsQuestion(args, i) && IsQuestion(args, j))
  }

  ghost predicate HasType(args: seq<string>) { exists i | 0 <= i < |args| :: IsType(args[i]) }

  ghost predicate HasTarget(args: seq<string>) { exists i | 0 <= i < |args| :: IsTarget(args[i]) }

  lemma OptionIsFlag(a: string)
    ensures DigFlag(a) <==> IsOption(a)
    ensures IsOption(a) ==> !IsTarget(a) && !IsType(a) && a != "-4" && a != "-6" && a != "-p"
  {
    assert DIG_SWITCHES == ["+short", "+dnssec", "+noall", "+comments", "+answer", "+authority"];
    assert |"+time="| == 6 && |"+tries="| == 7;
    if IsOption(a) {
      assert a[0] == '+';
    }
  }

  lemma WordsAre(a: string)
    ensures a in DIG_TYPES <==> IsType(a)
    ensures IsServer(a) <==> IsTarget(a)
    ensures IsTarget(a) ==> !IsType(a) && a != "-4" && a != "-6" && a != "-p"
  {
    assert DIG_TYPES[0] == "A" && DIG_TYPES[1] == "NS" && DIG_TYPES[2] == "SOA";
    assert "@"[0] == '@';
  }

  /** Taking an argument that is not `-p` off the front changes nothing about the others. */
  lemma FirstOff(args: seq<string>)
    requires args != [] && args[0] != "-p"
    ensures AllFit(args) <==> Fits(args, 0) && AllFit(args[1..])
    ensures NoQuestion(args) <==> !IsQuestion(args, 0) && NoQuestion(args[1..])
    ensures OneQuestion(args) <==> if IsQuestion(args, 0) then NoQuestion(args[1..]) else OneQuestion(args[1..])
    ensures HasType(args) <==> IsType(args[0]) || HasType(args[1..])
    ensures HasTarget(args) <==> IsTarget(args[0]) || HasTarget(args[1..])
  {
    hide IsOption, IsType, IsTarget, DigName;
    var rest := args[1..];
    assert |args| == |rest| + 1;
    forall i | 0 <= i < |rest|
      ensures Fits(rest, i) <==> Fits(args, i + 1)
      ensures IsQuestion(rest, i) <==> IsQuestion(args, i + 1)
      ensures rest[i] == args[i + 1]
    {
    }
    assert forall i | 1 <= i < |args| :: args[i] == rest[i - 1];
  }

  lemma PortIsNothingElse()
    ensures !IsOption("-p") && !IsTarget("-p") && !IsType("-p") && !DigName("-p") && "-p" != "-4" && "-p" != "-6"
  {
    assert "-p"[0] == '-' && "-p"[1] == 'p';
    var i := FirstIndex("-p", '.');
    assert i > 0 ==> "-p"[..i][0] == '-';
  }

  lemma NumberIsNothingElse(a: string)
    requires IsNumeric(a)
    ensures !IsType(a) && !IsTarget(a) && a != "-p"
  {
    assert a[0] in a && IsDigit(a[0]);
  }

  /** A `-p` with its number fits, and is no question. */
  lemma PortPair(args: seq<string>)
    requires |args| >= 2 && args[0] == "-p" && IsNumeric(args[1])
    ensures Fits(args, 0) && Fits(args, 1) && !IsQuestion(args, 0) && !IsQuestion(args, 1)
  {
    hide IsOption, IsType, IsTarget, DigName;
  }

  lemma PortShift(args: seq<string>, i: nat)
    requires |args| >= 2 && args[1] != "-p" && i < |args| - 2
    ensures Fits(args[2..], i) <==> Fits(args, i + 2)
    ensures IsQuestion(args[2..], i) <==> IsQuestion(args, i + 2)
  {
    hide IsOption, IsType, IsTarget, DigName;
    assert args[2..][i] == args[i + 2];
    assert i > 0 ==> args[2..][i - 1] == args[i + 1];
  }

  /** Taking a `-p` and its number off the front changes nothing about the other arguments. */
  lemma PortOff(args: seq<string>)
    requires |args| >= 2 && args[0] == "-p" && IsNumeric(args[1])
    ensures AllFit(args) <==> AllFit(args[2..])
    ensures NoQuestion(args) <==> NoQuestion(args[2..])
    ensures OneQuestion(args) <==> OneQuestion(args[2..])
  {
    hide Fits, IsQuestion, IsNumeric;
    NumberIsNothingElse(args[1]);
    PortPair(args);
    var rest := args[2..];
    forall i: nat | i < |rest|
      ensures Fits(rest, i) <==> Fits(args, i + 2)
      ensures IsQuestion(rest, i) <==> IsQuestion(args, i + 2)
    {
      PortShift(args, i);
    }
    forall i: nat | 2 <= i < |args|
      ensures Fits(args, i) <==> Fits(rest, i - 2)
      ensures IsQuestion(args, i) <==> IsQuestion(rest, i - 2)
    {
      PortShift(args, i - 2);
    }
  }

  lemma PortWords(args: seq<string>)
    requires |args| >= 2 && args[0] == "-p" && IsNumeric(args[1])
    ensures HasType(args) <==> HasType(args[2..])
    ensures HasTarget(args) <==> HasTarget(args[2..])
  {
    PortIsNothingElse();
    NumberIsNothingElse(args[1]);
    hide IsType, IsTarget, IsNumeric, IsOption, DigName;
    var rest := args[2..];
    assert forall i | 0 <= i < |rest| :: rest[i] == args[i + 2];
    assert forall i | 2 <= i < |args| :: args[i] == rest[i - 2];
  }

  /** What the scan accepts, exactly, from any point on. */
  lemma {:induction false} ScanExactly(s: Scan, args: seq<string>)
    ensures ScanAll(s, args).Some? <==>
            AllFit(args) && if s.name != "" then NoQuestion(args) else OneQuestion(args)
    ensures ScanAll(s, args).Some? ==>
              var r := ScanAll(s, args).value;
              (r.qtype != "" <==> s.qtype != "" || HasType(args)) &&
              (r.server != "" <==> s.server != "" || HasTarget(args)) &&
              (r.name != "" <==> s.name != "" || !NoQuestion(args))
    decreases |args|
  {
    hide DigFlag, DigName, IsNumeric, IsOption, IsType, IsTarget, AllFit, NoQuestion, OneQuestion, HasType, HasTarget,
      IsServer;
    if args == [] {
      NothingToScan();
    } else {
      OptionIsFlag(args[0]);
      WordsAre(args[0]);
      NamesAreNotEmpty(args[0]);
      if args[0] == "-p" {
        PortFits(args);
        if |args| >= 2 && IsNumeric(args[1]) {
          PortOff(args);
          PortWords(args);
          ScanExactly(s, args[2..]);
        }
      } else {
        FirstOff(args);
        if ScanOne(s, args[0]).Some? {
          ScanExactly(ScanOne(s, args[0]).value, args[1..]);
        }
      }
    }
  }

  lemma NothingToScan()
    ensures AllFit([]) && NoQuestion([]) && OneQuestion([]) && !HasType([]) && !HasTarget([])
  {
  }

  lemma NamesAreNotEmpty(a: string)
    ensures (DigName(a) || IsType(a) || IsTarget(a)) ==> a != ""
  {
    hide DigLabel;
    assert !DigLabel("") by { NoEmptyLabel(); }
  }

  lemma NoEmptyLabel()
    ensures !DigLabel("")
  {
  }

  lemma PortFits(args: seq<string>)
    requires args != [] && args[0] == "-p"
    ensures AllFit(args) ==> |args| >= 2 && IsNumeric(args[1])
  {
    hide DigName, IsOption, IsTarget, IsType;
    PortIsNothingElse();
    if AllFit(args) {
      assert Fits(args, 0);
      assert |args| >= 2 ==> Fits(args, 1);
    }
  }

  /**
    The gate, exactly: it lets an argument list through if and only if every argument is one of the options, types
    and targets listed above, the number of a port, or a name; and a target, a type and exactly one name are there.
   */
  lemma AcceptedExactly(args: seq<string>)
    ensures Accepts(args) <==>
            AllFit(args) && HasTarget(args) && HasType(args) && OneQuestion(args) && !NoQuestion(args)
  {
    hide AllFit, HasTarget, HasType, OneQuestion, NoQuestion, ScanAll;
    ScanExactly(Scan("", "", ""), args);
  }

  // ---------- the command Core builds ----------

  function ForwardQuery(zone: string, address: string): seq<string> {
    ["+time=3", "+tries=1", "+noall", "+comments", "+answer", "+authority", "@" + address, zone, "SOA"]
  }

  lemma FixedFlags()
    ensures DigFlag("+time=3") && DigFlag("+tries=1") && DigFlag("+noall") && DigFlag("+comments")
    ensures DigFlag("+answer") && DigFlag("+authority")
  {
    assert "+time=3"[6..] == "3" && "+tries=1"[7..] == "1";
    assert DIG_SWITCHES[2] == "+noall" && DIG_SWITCHES[3] == "+comments" && DIG_SWITCHES[4] == "+answer";
    assert DIG_SWITCHES[5] == "+authority";
  }

  /** A flag, a server, a type and a zone name are never mistaken for one another. */
  lemma FlagsStartWithPlus(a: string)
    requires DigFlag(a)
    ensures |a| > 0 && a[0] == '+'
  {
  }

  lemma StepFlag(s: Scan, a: string, rest: seq<string>)
    requires DigFlag(a)
    ensures ScanAll(s, [a] + rest) == ScanAll(s, rest)
  {
    assert ([a] + rest)[1..] == rest;
  }

  lemma StepOther(s: Scan, a: string, rest: seq<string>)
    requires |a| > 0 && a[0] != '+' && a != "-p" && ScanOne(s, a).Some?
    ensures ScanAll(s, [a] + rest) == ScanAll(ScanOne(s, a).value, rest)
  {
    hide DigFlag, DigName;
    assert ([a] + rest)[1..] == rest;
    if DigFlag(a) {
      FlagsStartWithPlus(a);
    }
  }

  lemma NotAFlag(a: string)
    requires |a| > 0 && a[0] != '+' && a[0] != '-'
    ensures !DigFlag(a) && a != "-4" && a != "-6" && a != "-p"
  {
    hide DigFlag;
    if DigFlag(a) {
      FlagsStartWithPlus(a);
    }
  }

  lemma ReadsServer(s: Scan, address: string)
    requires address != ""
    ensures ScanOne(s, "@" + address) == Some(s.(server := "@" + address)) && ("@" + address)[0] == '@'
  {
    hide DigFlag, DigName;
    NotAFlag("@" + address);
  }

  lemma ReadsZone(s: Scan, zone: string)
    requires s.name == "" && ValidZoneName(zone)
    ensures ScanOne(s, zone) == Some(s.(name := zone)) && |zone| > 0 && zone[0] != '+' && zone != "-p"
  {
    hide DigFlag, DigName, ValidZoneName;
    ZoneNamesExactly(zone);
    ZoneStart(zone);
    NotAFlag(zone);
  }

  lemma ZoneStart(zone: string)
    requires ValidZoneName(zone)
    ensures |zone| >= 2 && zone[0] != '+' && zone[0] != '-' && zone[0] != '@' && zone[|zone| - 1] == '.'
    ensures zone !in DIG_TYPES
  {
    hide ToLower, TrimSpace;
    var body := TrimSuffix(zone, ".");
    assert zone == body + ".";
    var first := SplitOn(body, '.')[0];
    assert first in SplitOn(body, '.') && ValidHostLabel(first);
  }

  lemma ReadsType(s: Scan)
    ensures ScanOne(s, "SOA") == Some(s.(qtype := "SOA"))
  {
    hide DigName, DigFlag;
    assert DIG_TYPES[2] == "SOA" && "SOA"[0] == 'S';
    NotAFlag("SOA");
  }

  /** The gate lets through the query for every zone and server the settings validator lets through. */
  lemma GateCoversForwardChecks(ip: Netip, zone: ForwardZone, k: nat)
    requires ValidForwardZone(ip, zone) && k < |zone.servers| && !ip.canonical("")
    ensures Accepts(ForwardQuery(zone.name, zone.servers[k]))
  {
    hide ValidZoneName, ScanOne, DigFlag;
    var address := zone.servers[k];
    assert ValidServer(ip, address);
    var server := "@" + address;
    var s0 := Scan("", "", "");
    FixedFlags();
    ReadsServer(s0, address);
    var s1 := s0.(server := server);
    ReadsZone(s1, zone.name);
    var s2 := s1.(name := zone.name);
    ReadsType(s2);
    StepOther(s2, "SOA", []);
    StepOther(s1, zone.name, ["SOA"]);
    StepOther(s0, server, [zone.name, "SOA"]);
    StepFlag(s0, "+authority", [server, zone.name, "SOA"]);
    StepFlag(s0, "+answer", ["+authority", server, zone.name, "SOA"]);
    StepFlag(s0, "+comments", ["+answer", "+authority", server, zone.name, "SOA"]);
    StepFlag(s0, "+noall", ["+comments", "+answer", "+authority", server, zone.name, "SOA"]);
    StepFlag(s0, "+tries=1", ["+noall", "+comments", "+answer", "+authority", server, zone.name, "SOA"]);
    StepFlag(s0, "+time=3", ["+tries=1", "+noall", "+comments", "+answer", "+authority", server, zone.name, "SOA"]);
    Assembled(zone.name, server);
  }

  lemma Assembled(zone: string, server: string)
    ensures ["+time=3"] + ["+tries=1", "+noall", "+comments", "+answer", "+authority", server, zone, "SOA"] ==
            ["+time=3", "+tries=1", "+noall", "+comments", "+answer", "+authority", server, zone, "SOA"]
    ensures ["+tries=1"] + ["+noall", "+comments", "+answer", "+authority", server, zone, "SOA"] ==
            ["+tries=1", "+noall", "+comments", "+answer", "+authority", server, zone, "SOA"]
    ensures ["+noall"] + ["+comments", "+answer", "+authority", server, zone, "SOA"] ==
            ["+noall", "+comments", "+answer", "+authority", server, zone, "SOA"]
    ensures ["+comments"] + ["+answer", "+authority", server, zone, "SOA"] ==
            ["+comments", "+answer", "+authority", server, zone, "SOA"]
    ensures ["+answer"] + ["+authority", server, zone, "SOA"] == ["+answer", "+authority", server, zone, "SOA"]
    ensures ["+authority"] + [server, zone, "SOA"] == ["+authority", server, zone, "SOA"]
    ensures [server] + [zone, "SOA"] == [server, zone, "SOA"] && [zone] + ["SOA"] == [zone, "SOA"]
    ensures ["SOA"] + [] == ["SOA"]
  {
  }
}
