/**
  The text layer under the Unbound configuration language: the parts of Go's `strings` and
  `strconv` packages that the renderer and the importer are written with. Text is a sequence of
  Unicode characters; `ByteLength` gives the UTF-8 size that Go's `len` reports.
 */
module Text {

  datatype Option<+T> = None | Some(value: T)

  // ---------- characters ----------

  /** The characters `unicode.IsSpace` accepts. */
  predicate IsSpace(c: char) {
    c == ' ' || '\t' <= c <= '\r' || c == '\U{85}' || c == '\U{A0}' || c == '\U{1680}' ||
    '\U{2000}' <= c <= '\U{200A}' || c == '\U{2028}' || c == '\U{2029}' || c == '\U{202F}' ||
    c == '\U{205F}' || c == '\U{3000}'
  }

  predicate IsDigit(c: char) { '0' <= c <= '9' }

  predicate IsLowerAlnum(c: char) { 'a' <= c <= 'z' || IsDigit(c) }

  function LowerChar(c: char): char {
    if 'A' <= c <= 'Z' then (c as int - 'A' as int + 'a' as int) as char else c
  }

  function ToLower(s: string): (r: string)
    ensures |r| == |s|
  {
    seq(|s|, i requires 0 <= i < |s| => LowerChar(s[i]))
  }

  function Utf8Width(c: char): nat {
    var v := c as int;
    if v < 0x80 then 1 else if v < 0x800 then 2 else if v < 0x1_0000 then 3 else 4
  }

  function ByteLength(s: string): nat {
    if s == [] then 0 else Utf8Width(s[0]) + ByteLength(s[1..])
  }

  lemma {:induction false} ByteLengthConcat(a: string, b: string)
    ensures ByteLength(a + b) == ByteLength(a) + ByteLength(b)
  {
    if a == [] {
      assert a + b == b;
    } else {
      ByteLengthConcat(a[1..], b);
      assert (a + b)[1..] == a[1..] + b;
    }
  }

  // ---------- prefixes, suffixes, searching ----------

  predicate HasPrefix(s: string, p: string) { p <= s }

  predicate HasSuffix(s: string, p: string) { |p| <= |s| && s[|s| - |p|..] == p }

  function TrimSuffix(s: string, p: string): string {
    if HasSuffix(s, p) then s[..|s| - |p|] else s
  }

  /** Index of the first `c`, or `|s|` when there is none. */
  function FirstIndex(s: string, c: char): (i: nat)
    ensures i <= |s|
    ensures c !in s[..i]
    ensures i < |s| ==> s[i] == c
  {
    if s == [] || s[0] == c then 0
    else
      var i := 1 + FirstIndex(s[1..], c);
      assert s[..i] == [s[0]] + s[1..][..i - 1];
      i
  }

  lemma FirstIndexIs(s: string, c: char, i: nat)
    requires i <= |s| && c !in s[..i] && (i < |s| ==> s[i] == c)
    ensures FirstIndex(s, c) == i
  {
    if 0 < i {
      assert s[0] == s[..i][0];
      assert s[1..][..i - 1] == s[..i][1..];
      FirstIndexIs(s[1..], c, i - 1);
    }
  }

  // ---------- trimming ----------

  function TrimLeft(s: string): (r: string)
    ensures |r| <= |s|
  {
    if s != [] && IsSpace(s[0]) then TrimLeft(s[1..]) else s
  }

  function TrimRight(s: string): (r: string)
    ensures |r| <= |s|
  {
    if s != [] && IsSpace(s[|s| - 1]) then TrimRight(s[..|s| - 1]) else s
  }

  /** What is cut off in front is blank, and what is left does not start blank. */
  lemma {:induction false} TrimLeftSplits(s: string) returns (front: string)
    ensures s == front + TrimLeft(s) && forall c | c in front :: IsSpace(c)
    ensures TrimLeft(s) != [] ==> !IsSpace(TrimLeft(s)[0])
  {
    if s != [] && IsSpace(s[0]) {
      var rest := TrimLeftSplits(s[1..]);
      front := [s[0]] + rest;
      assert s == [s[0]] + s[1..];
    } else {
      front := [];
    }
  }

  lemma {:induction false} TrimRightSplits(s: string) returns (back: string)
    ensures s == TrimRight(s) + back && forall c | c in back :: IsSpace(c)
    ensures TrimRight(s) != [] ==> !IsSpace(TrimRight(s)[|TrimRight(s)| - 1])
  {
    if s != [] && IsSpace(s[|s| - 1]) {
      var rest := TrimRightSplits(s[..|s| - 1]);
      back := rest + [s[|s| - 1]];
      assert s == s[..|s| - 1] + [s[|s| - 1]];
    } else {
      back := [];
    }
  }

  function TrimSpace(s: string): string { TrimRight(TrimLeft(s)) }

  /** Text that `TrimSpace` leaves alone. */
  predicate Trimmed(s: string) { s == [] || (!IsSpace(s[0]) && !IsSpace(s[|s| - 1])) }

  lemma TrimSpaceTrims(s: string)
    ensures Trimmed(TrimSpace(s))
    ensures Trimmed(s) ==> TrimSpace(s) == s
  {
    var left := TrimLeft(s);
    var front := TrimLeftSplits(s);
    var back := TrimRightSplits(left);
    assert TrimRight(left) != [] ==> TrimRight(left)[0] == left[0];
  }

  lemma TrimSpaceBlanks(blanks: string, s: string)
    requires Trimmed(s) && forall c | c in blanks :: IsSpace(c)
    ensures TrimSpace(blanks + s) == s
  {
    if blanks == [] {
      assert blanks + s == s;
    } else {
      assert (blanks + s)[1..] == blanks[1..] + s;
      assert blanks[0] in blanks;
      TrimSpaceBlanks(blanks[1..], s);
    }
  }

  lemma {:induction false} TrimRightBlanks(s: string, back: string)
    requires s != [] && !IsSpace(s[|s| - 1]) && forall c | c in back :: IsSpace(c)
    ensures TrimRight(s + back) == s
  {
    if back == [] {
      assert s + back == s;
    } else {
      var n := |back| - 1;
      assert back[n] in back && (s + back)[..|s| + n] == s + back[..n];
      assert forall c | c in back[..n] :: c in back;
      TrimRightBlanks(s, back[..n]);
    }
  }

  lemma {:induction false} TrimLeftBlanks(front: string, s: string)
    requires s != [] && !IsSpace(s[0]) && forall c | c in front :: IsSpace(c)
    ensures TrimLeft(front + s) == s
  {
    if front == [] {
      assert front + s == s;
    } else {
      assert front[0] in front && (front + s)[1..] == front[1..] + s;
      assert forall c | c in front[1..] :: c in front;
      TrimLeftBlanks(front[1..], s);
    }
  }

  /** Blanks on both sides are cut off. */
  lemma TrimSpaceBoth(front: string, s: string, back: string)
    requires s != [] && Trimmed(s) && (forall c | c in front :: IsSpace(c)) && forall c | c in back :: IsSpace(c)
    ensures TrimSpace(front + s + back) == s
  {
    assert front + s + back == front + (s + back);
    TrimLeftBlanks(front, s + back);
    TrimRightBlanks(s, back);
  }

  // ---------- lines ----------

  /** `strings.Split` on a one-character separator. */
  function SplitOn(s: string, c: char): (parts: seq<string>)
    ensures |parts| > 0
    ensures forall p | p in parts :: c !in p
  {
    var i := FirstIndex(s, c);
    if i == |s| then [s] else [s[..i]] + SplitOn(s[i + 1..], c)
  }

  lemma SplitOnStep(s: string, c: char, i: nat)
    requires i <= |s| && c !in s[..i] && (i < |s| ==> s[i] == c)
    ensures SplitOn(s, c) == if i == |s| then [s] else [s[..i]] + SplitOn(s[i + 1..], c)
  {
    FirstIndexIs(s, c, i);
  }

  /** Splitting at a separator in the middle. */
  lemma {:induction false} SplitOnConcat(a: string, c: char, b: string)
    ensures SplitOn(a + [c] + b, c) == SplitOn(a, c) + SplitOn(b, c)
  {
    hide SplitOn;
    var s := a + [c] + b;
    var i := FirstIndex(a, c);
    assert s[..i] == a[..i] && s[i] == c;
    SplitOnStep(s, c, i);
    SplitOnStep(a, c, i);
    if i == |a| {
      assert s[i + 1..] == b && a[..i] == a;
    } else {
      assert s[i + 1..] == a[i + 1..] + [c] + b;
      SplitOnConcat(a[i + 1..], c, b);
    }
  }

  function SplitLines(s: string): (lines: seq<string>)
    ensures |lines| > 0
    ensures forall l | l in lines :: '\n' !in l
  {
    SplitOn(s, '\n')
  }

  /** Splitting loses no character. */
  lemma {:induction false} SplitKeepsCharacters(s: string, c: char, x: char)
    requires x in s && x != c
    ensures exists p | p in SplitOn(s, c) :: x in p
  {
    var i := FirstIndex(s, c);
    var parts := SplitOn(s, c);
    if i == |s| || x in s[..i] {
      assert s[..|s|] == s;
      assert parts[0] in parts && x in parts[0];
    } else {
      assert s == s[..i] + [c] + s[i + 1..];
      SplitKeepsCharacters(s[i + 1..], c, x);
      var p :| p in SplitOn(s[i + 1..], c) && x in p;
      assert p in parts;
    }
  }

  /** Every line followed by a newline, as `fmt.Fprintln` writes them. */
  function JoinLines(lines: seq<string>): string {
    if lines == [] then "" else lines[0] + "\n" + JoinLines(lines[1..])
  }

  lemma {:induction false} SplitOfJoin(lines: seq<string>)
    requires forall l | l in lines :: '\n' !in l
    ensures SplitLines(JoinLines(lines)) == lines + [""]
  {
    var s := JoinLines(lines);
    if lines == [] {
      FirstIndexIs(s, '\n', 0);
    } else {
      var n := |lines[0]|;
      assert lines[0] in lines;
      assert s[..n] == lines[0] && s[n] == '\n';
      FirstIndexIs(s, '\n', n);
      assert s[n + 1..] == JoinLines(lines[1..]);
      SplitOfJoin(lines[1..]);
      assert [lines[0]] + (lines[1..] + [""]) == lines + [""];
    }
  }

  lemma {:induction false} JoinLinesConcat(a: seq<string>, b: seq<string>)
    ensures JoinLines(a + b) == JoinLines(a) + JoinLines(b)
  {
    if a == [] {
      assert a + b == b;
    } else {
      JoinLinesConcat(a[1..], b);
      assert (a + b)[1..] == a[1..] + b && (a + b)[0] == a[0];
      var tail := JoinLines(a[1..]);
      assert a[0] + "\n" + (tail + JoinLines(b)) == a[0] + "\n" + tail + JoinLines(b);
    }
  }

  lemma JoinLinesSnoc(a: seq<string>, l: string)
    ensures JoinLines(a + [l]) == JoinLines(a) + l + "\n"
  {
    JoinLinesConcat(a, [l]);
    assert JoinLines([l]) == l + "\n" + JoinLines([]);
  }

  /** `strings.Join(lines, "\n")`. */
  function JoinWith(lines: seq<string>): string {
    if lines == [] then "" else if |lines| == 1 then lines[0] else lines[0] + "\n" + JoinWith(lines[1..])
  }

  // ---------- fields ----------

  function WordLength(s: string): (n: nat)
    ensures n <= |s|
    ensures forall i | 0 <= i < n :: !IsSpace(s[i])
    ensures n < |s| ==> IsSpace(s[n])
  {
    if s == [] || IsSpace(s[0]) then 0 else 1 + WordLength(s[1..])
  }

  /** `strings.Fields`. */
  function Fields(s: string): seq<string>
    decreases |s|
  {
    var t := TrimLeft(s);
    if t == [] then []
    else
      var n := WordLength(t);
      [t[..n]] + Fields(t[n..])
  }

  /** A field: not empty and without white space. */
  predicate IsToken(s: string) { s != [] && forall c | c in s :: !IsSpace(c) }

  lemma WordLengthIs(s: string, n: nat)
    requires n <= |s| && (forall i | 0 <= i < n :: !IsSpace(s[i])) && (n < |s| ==> IsSpace(s[n]))
    ensures WordLength(s) == n
  {
    if 0 < n {
      WordLengthIs(s[1..], n - 1);
    }
  }

  lemma FieldsOfToken(t: string)
    requires IsToken(t)
    ensures Fields(t) == [t]
  {
    assert t[0] in t;
    forall i | 0 <= i < |t| ensures !IsSpace(t[i]) { assert t[i] in t; }
    WordLengthIs(t, |t|);
    assert t[..|t|] == t;
    assert Fields(t[|t|..]) == [];
  }

  lemma FieldsOfCons(t: string, rest: string)
    requires IsToken(t)
    ensures Fields(t + " " + rest) == [t] + Fields(rest)
  {
    var s := t + " " + rest;
    assert t[0] in t && s[0] == t[0];
    forall i | 0 <= i < |t| ensures !IsSpace(s[i]) { assert s[i] == t[i] && t[i] in t; }
    WordLengthIs(s, |t|);
    assert s[..|t|] == t && s[|t|..] == " " + rest;
    assert (" " + rest)[1..] == rest;
    assert TrimLeft(" " + rest) == TrimLeft(rest);
    assert Fields(" " + rest) == Fields(rest);
  }

  // ---------- quoting ----------

  function EscapeChar(c: char): string {
    if c == '"' then "\\\""
    else if c == '\\' then "\\\\"
    else if c == '\n' then "\\n"
    else if c == '\r' then "\\r"
    else if c == '\t' then "\\t"
    else [c]
  }

  function Escape(s: string): string {
    if s == [] then "" else EscapeChar(s[0]) + Escape(s[1..])
  }

  /** The `%q` verb, for text without further control characters. */
  function Quote(s: string): string { "\"" + Escape(s) + "\"" }

  predicate NeedsNoEscape(s: string) { forall c | c in s :: c !in "\"\\\n\r\t" }

  lemma EscapePlain(s: string)
    requires NeedsNoEscape(s)
    ensures Escape(s) == s
  {
    if s != [] {
      assert s[0] in s;
      EscapePlain(s[1..]);
      assert EscapeChar(s[0]) == [s[0]];
      assert [s[0]] + s[1..] == s;
    }
  }

  // ---------- integers ----------

  const DIGITS: string := "0123456789"

  function ItoaNat(n: nat): (r: string)
    ensures r != [] && forall c | c in r :: IsDigit(c)
  {
    if n < 10 then [DIGITS[n]] else ItoaNat(n / 10) + [DIGITS[n % 10]]
  }

  /** The `%d` verb. */
  function Itoa(n: int): string { if n < 0 then "-" + ItoaNat(-n) else ItoaNat(n) }

  function DigitsValue(s: string): nat
    requires forall c | c in s :: IsDigit(c)
  {
    if s == [] then 0
    else
      var last := s[|s| - 1];
      assert last in s && IsDigit(last);
      10 * DigitsValue(s[..|s| - 1]) + (last as int - '0' as int)
  }

  const INT64_MAX: int := 0x7FFF_FFFF_FFFF_FFFF

  /** `strconv.Atoi` on a 64-bit platform: an optional sign, decimal digits, and a range check. */
  function Atoi(s: string): Option<int> {
    var negative := s != [] && s[0] == '-';
    var digits := if s != [] && s[0] in "+-" then s[1..] else s;
    if digits == [] || exists c | c in digits :: !IsDigit(c) then None
    else
      var n: int := DigitsValue(digits);
      if negative then (if n <= INT64_MAX + 1 then Some(-n) else None)
      else if n <= INT64_MAX then Some(n) else None
  }

  lemma {:induction false} DigitsOfItoa(n: nat)
    ensures DigitsValue(ItoaNat(n)) == n
  {
    var r := ItoaNat(n);
    if n < 10 {
      assert r[..0] == [];
    } else {
      DigitsOfItoa(n / 10);
      assert r[..|r| - 1] == ItoaNat(n / 10);
    }
  }

  lemma AtoiOfItoa(n: int)
    requires 0 <= n <= INT64_MAX
    ensures Atoi(Itoa(n)) == Some(n)
  {
    var r := ItoaNat(n);
    assert r[0] in r;
    DigitsOfItoa(n);
  }
}
