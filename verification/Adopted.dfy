/**
  The text the importer proposes for the expert editor (import.go:155-245), line by line: after the kept text come
  exactly the lines meant for the expert, each once, in the order of the file.
 */
module UnboundAdopted {
  import opened Text
  import opened Seqs
  import opened UnboundSettings
  import opened UnboundParse
  import opened UnboundExtract
  import opened UnboundGroups
  import opened UnboundImport
  import opened UnboundImportLaws
  import opened UnboundVerdicts

  // Rows of a file: row 0 of a block is its header, row k + 1 its directive k.

  ghost predicate RowOf(blocks: seq<ParsedBlock>, p: Place) {
    p.block < |blocks| && p.index <= |blocks[p.block].directives|
  }

  /** How a row is written into the expert text. */
  function Written(blocks: seq<ParsedBlock>): Place -> string {
    (p: Place) =>
      if !(p.block < |blocks| && p.index <= |blocks[p.block].directives|) then ""
      else if p.index == 0 then blocks[p.block].section + ":"
      else if blocks[p.block].section == "server" then blocks[p.block].directives[p.index - 1].raw
      else "    " + blocks[p.block].directives[p.index - 1].raw
  }

  /** A row is meant for the expert: all of an open clause, or a directive of a server block with that verdict. */
  ghost predicate ForExpert(ip: Netip, blocks: seq<ParsedBlock>, p: Place) {
    RowOf(blocks, p) &&
    var block := blocks[p.block];
    if block.section == "server" then
      0 < p.index && Place(p.block, p.index - 1) !in AllConsumed(ip, blocks) &&
      Verdict(ip, blocks, block.directives[p.index - 1].key, block.directives[p.index - 1].value) == Expert
    else MappedZone(ip, block).None? && block.section !in CLOSED_CLAUSES
  }

  ghost predicate Before(p: Place, q: Place) { p.block < q.block || (p.block == q.block && p.index < q.index) }

  ghost predicate InFileOrder(ps: seq<Place>) { forall i, j | 0 <= i < j < |ps| :: Before(ps[i], ps[j]) }

  /** The rows meant for the expert below a bound, in file order. */
  ghost predicate Lists(ip: Netip, blocks: seq<ParsedBlock>, ps: seq<Place>, lo: nat, hi: nat) {
    InFileOrder(ps) && forall p :: p in ps <==> lo <= p.block < hi && ForExpert(ip, blocks, p)
  }

  // ---------- one block ----------

  /** What the expert gets of a directive of a server block. */
  lemma ServerRow(ip: Netip, blocks: seq<ParsedBlock>, b: nat, i: nat)
    requires b < |blocks| && blocks[b].section == "server" && i < |blocks[b].directives|
    ensures var raw := [Written(blocks)(Place(b, i + 1))];
            ForExpert(ip, blocks, Place(b, i + 1)) <==>
            Place(b, i) !in AllConsumed(ip, blocks) &&
            ExpertAt(ZoneNames(MappedZones(ip, blocks)), blocks[b].directives)(i) == raw
    ensures Place(b, i) !in AllConsumed(ip, blocks) && !ForExpert(ip, blocks, Place(b, i + 1)) ==>
              ExpertAt(ZoneNames(MappedZones(ip, blocks)), blocks[b].directives)(i) == []
  {
    hide AllConsumed, MappedZones, ZoneNames, Verdict, DispositionOf;
    VerdictIs(ip, blocks, KVOf(blocks[b].directives[i]));
  }

  lemma {:induction false} ServerRows(ip: Netip, blocks: seq<ParsedBlock>, b: nat, n: nat) returns (ps: seq<Place>)
    requires b < |blocks| && blocks[b].section == "server" && n <= |blocks[b].directives|
    ensures Flat(Unconsumed(AllConsumed(ip, blocks), b, n),
                 ExpertAt(ZoneNames(MappedZones(ip, blocks)), blocks[b].directives)) == Map(ps, Written(blocks))
    ensures InFileOrder(ps) && forall p :: p in ps <==> p.block == b && 0 < p.index <= n && ForExpert(ip, blocks, p)
  {
    hide AllConsumed, MappedZones, ZoneNames, Flat, ExpertAt, Written, ForExpert;
    var consumed := AllConsumed(ip, blocks);
    var expert := ExpertAt(ZoneNames(MappedZones(ip, blocks)), blocks[b].directives);
    if n == 0 {
      ps := [];
      FlatNothing(expert);
    } else {
      var before := ServerRows(ip, blocks, b, n - 1);
      ServerRow(ip, blocks, b, n - 1);
      FlatOne(Unconsumed(consumed, b, n - 1), n - 1, expert);
      if ForExpert(ip, blocks, Place(b, n)) {
        ps := before + [Place(b, n)];
        assert Map(ps, Written(blocks)) == Map(before, Written(blocks)) + [Written(blocks)(Place(b, n))];
        assert forall i | 0 <= i < |before| :: before[i] in before;
      } else {
        ps := before;
        assert Map(ps, Written(blocks)) + [] == Map(ps, Written(blocks));
        if Place(b, n - 1) in consumed {
          assert Unconsumed(consumed, b, n) == Unconsumed(consumed, b, n - 1);
        }
      }
    }
  }

  /** Neither the header of a server block nor a row past its end is meant for the expert. */
  lemma RowsOfServer(ip: Netip, blocks: seq<ParsedBlock>, p: Place)
    requires p.block < |blocks| && blocks[p.block].section == "server" && ForExpert(ip, blocks, p)
    ensures 0 < p.index <= |blocks[p.block].directives|
  {
  }

  lemma ClauseRows(ip: Netip, blocks: seq<ParsedBlock>, b: nat) returns (ps: seq<Place>)
    requires b < |blocks| && blocks[b].section != "server" && MappedZone(ip, blocks[b]).None?
    ensures ClauseLines(blocks[b]) == Map(ps, Written(blocks))
    ensures InFileOrder(ps) && forall p :: p in ps <==> p.block == b && ForExpert(ip, blocks, p)
  {
    hide MappedZone, AllConsumed, Verdict;
    ClosedClauses(blocks[b].section);
    hide IsBlockedSection, CLOSED_CLAUSES;
    if blocks[b].section in CLOSED_CLAUSES {
      ps := [];
    } else {
      ps := seq(|blocks[b].directives| + 1, i requires 0 <= i <= |blocks[b].directives| => Place(b, i));
      forall p ensures p in ps <==> p.block == b && ForExpert(ip, blocks, p) {
        if p.block == b && p.index <= |blocks[b].directives| {
          assert ps[p.index] == p;
        }
      }
      assert ClauseLines(blocks[b]) == Map(ps, Written(blocks));
    }
  }

  lemma BlockRows(ip: Netip, blocks: seq<ParsedBlock>, b: nat) returns (ps: seq<Place>)
    requires b < |blocks|
    ensures BlockExpert(ZoneNames(MappedZones(ip, blocks)), AllConsumed(ip, blocks), Mapped(ip, blocks), b, blocks[b])
            == Map(ps, Written(blocks))
    ensures Lists(ip, blocks, ps, b, b + 1)
  {
    hide MappedZone, AllConsumed, Verdict, ClauseLines, ExpertAt, Unconsumed, MappedZones, ZoneNames, Written;
    if MappedZone(ip, blocks[b]).Some? {
      ServerBlocksAreUnmapped'(ip, blocks[b]);
      ps := [];
    } else if blocks[b].section == "server" {
      ps := ServerRows(ip, blocks, b, |blocks[b].directives|);
      forall p: Place | p.block == b && ForExpert(ip, blocks, p) ensures p in ps { RowsOfServer(ip, blocks, p); }
    } else {
      ps := ClauseRows(ip, blocks, b);
    }
  }

  lemma ServerBlocksAreUnmapped'(ip: Netip, block: ParsedBlock)
    requires MappedZone(ip, block).Some?
    ensures block.section != "server"
  {
  }

  lemma {:induction false} AllRows(ip: Netip, blocks: seq<ParsedBlock>, n: nat) returns (ps: seq<Place>)
    requires n <= |blocks|
    ensures AllExpert(ZoneNames(MappedZones(ip, blocks)), AllConsumed(ip, blocks), Mapped(ip, blocks), blocks, n)
            == Map(ps, Written(blocks))
    ensures Lists(ip, blocks, ps, 0, n)
  {
    hide ForExpert, AllConsumed, Mapped, MappedZones, ZoneNames, BlockExpert, Written;
    if n == 0 {
      ps := [];
    } else {
      var before := AllRows(ip, blocks, n - 1);
      var block := BlockRows(ip, blocks, n - 1);
      ps := before + block;
      assert Map(ps, Written(blocks)) == Map(before, Written(blocks)) + Map(block, Written(blocks));
      forall i, j | 0 <= i < j < |ps| ensures Before(ps[i], ps[j]) {
        assert i < |before| ==> ps[i] in before;
        assert j >= |before| ==> ps[j] in block;
      }
    }
  }

  // ---------- the rows are single lines ----------

  ghost predicate OneLine(block: ParsedBlock) {
    '\n' !in block.section && forall i | 0 <= i < |block.directives| :: '\n' !in block.directives[i].raw
  }

  lemma TrimKeepsOut(s: string, c: char)
    requires c !in s
    ensures c !in TrimSpace(s)
  {
    var front := TrimLeftSplits(s);
    var back := TrimRightSplits(TrimLeft(s));
    assert forall x | x in TrimLeft(s) :: x in front + TrimLeft(s);
    assert forall x | x in TrimSpace(s) :: x in TrimSpace(s) + back;
  }

  lemma ReadOneLine(raw: string)
    requires '\n' !in raw
    ensures ReadLine(raw).Opens? ==> '\n' !in ReadLine(raw).section
  {
    hide TrimSpace, FirstIndex, Unquote;
    TrimKeepsOut(StripComment(raw), '\n');
    var line := TrimSpace(StripComment(raw));
    var i := FirstIndex(line, ':');
    TrimKeepsOut(line[..i], '\n');
    LowerKeepsOut(TrimSpace(line[..i]));
  }

  lemma LowerKeepsOut(s: string)
    requires '\n' !in s
    ensures '\n' !in ToLower(s)
  {
    forall i | 0 <= i < |s| ensures ToLower(s)[i] != '\n' {
      assert s[i] in s;
    }
  }

  lemma {:induction false} BlocksOneLine(lines: seq<string>, n: nat, current: ParsedBlock)
    requires OneLine(current) && forall l | l in lines :: '\n' !in l
    ensures forall i | 0 <= i < |BlocksFrom(lines, n, current)| :: OneLine(BlocksFrom(lines, n, current)[i])
  {
    hide ReadLine, TrimSpace;
    if lines != [] {
      assert lines[0] in lines;
      ReadOneLine(lines[0]);
      TrimKeepsOut(lines[0], '\n');
      match ReadLine(lines[0])
      case Nothing => BlocksOneLine(lines[1..], n + 1, current);
      case Opens(section) => BlocksOneLine(lines[1..], n + 1, ParsedBlock(section, n, []));
      case Holds(kv) => BlocksOneLine(lines[1..], n + 1, AddDirective(current, kv, n, lines[0]));
    }
  }

  lemma WrittenOneLine(content: string, p: Place)
    ensures '\n' !in Written(Blocks(content))(p)
  {
    hide BlocksFrom, SplitLines;
    BlocksOneLine(SplitLines(content), 1, IMPLICIT_SERVER);
  }

  // ---------- the text ----------

  lemma SplitConcat(a: string, b: string)
    ensures SplitLines(a + "\n" + b) == SplitLines(a) + SplitLines(b)
  {
    hide SplitOn;
    SplitOnConcat(a, '\n', b);
  }

  lemma JoinedWithNewline(lines: seq<string>)
    requires lines != []
    ensures JoinWith(lines) + "\n" == JoinLines(lines)
  {
    if |lines| == 1 {
      assert lines[1..] == [];
    }
  }

  /** Kept text, an empty line between, the expert lines, and the end of the last line. */
  lemma AdoptedLines(custom: string, expert: seq<string>)
    requires forall l | l in expert :: '\n' !in l
    ensures var kept := TrimSpace(custom);
            if expert == [] then Adopt(custom, expert) == kept
            else SplitLines(Adopt(custom, expert)) ==
                 (if kept == "" then [] else SplitLines(kept) + [""]) + expert + [""]
  {
    hide TrimSpace, SplitLines, JoinWith;
    var kept := TrimSpace(custom);
    if expert != [] {
      JoinedWithNewline(expert);
      SplitOfJoin(expert);
      var text := JoinLines(expert);
      if kept == "" {
        assert Adopt(custom, expert) == "" + JoinWith(expert) + "\n" == text;
      } else {
        assert Adopt(custom, expert) == kept + "\n\n" + JoinWith(expert) + "\n";
        assert kept + "\n\n" + JoinWith(expert) + "\n" == kept + "\n" + ("" + "\n" + text);
        SplitConcat(kept, "" + "\n" + text);
        SplitConcat("", text);
        EmptyIsOneLine();
      }
    }
  }

  lemma EmptyIsOneLine()
    ensures SplitLines("") == [""]
  {
  }

  /**
    The proposed expert text of every import: the text there was, trimmed, and below it exactly the rows meant for
    the expert, in file order. `ps` is determined by that: it is the ascending enumeration of those rows.
   */
  lemma AdoptedExactly(ip: Netip, current: Settings, custom: string, content: string) returns (ps: seq<Place>)
    ensures var blocks, kept := Blocks(content), TrimSpace(custom);
            var adopted := ImportOf(ip, current, custom, blocks).customAdopted;
            InFileOrder(ps) && (forall p :: p in ps <==> ForExpert(ip, blocks, p)) &&
            if ps == [] then adopted == kept
            else SplitLines(adopted) ==
                 (if kept == "" then [] else SplitLines(kept) + [""]) + Map(ps, Written(blocks)) + [""]
  {
    hide AllConsumed, Mapped, MappedZones, ZoneNames, AllExpert, AllFindings, ExtractorFindings, Blocks, Adopt,
      TrimSpace, SplitLines, Written, ImportOf;
    var blocks := Blocks(content);
    ps := AllRows(ip, blocks, |blocks|);
    ReportIsExact(ip, current, custom, blocks);
    var expert := Map(ps, Written(blocks));
    forall l | l in expert ensures '\n' !in l {
      var i :| 0 <= i < |expert| && expert[i] == l;
      WrittenOneLine(content, ps[i]);
    }
    AdoptedLines(custom, expert);
    forall p ensures p in ps <==> ForExpert(ip, blocks, p) {
      assert ForExpert(ip, blocks, p) ==> p.block < |blocks|;
    }
  }

  // ---------- whole clauses ----------

  /** Consecutive rows stand next to each other in a list that holds them all. */
  lemma {:induction false} RowsAreAdjacent(ps: seq<Place>, b: nat, n: nat, at: nat, k: nat)
    requires InFileOrder(ps) && (forall j: nat | j <= n :: Place(b, j) in ps)
    requires at < |ps| && ps[at] == Place(b, 0) && k <= n
    ensures at + k < |ps| && ps[at + k] == Place(b, k)
  {
    if k > 0 {
      RowsAreAdjacent(ps, b, n, at, k - 1);
      assert Place(b, k) in ps;
      var m :| 0 <= m < |ps| && ps[m] == Place(b, k);
      assert m > at + k - 1;
      assert Before(ps[at + k - 1], ps[at + k]);
    }
  }

  lemma RunOfRows(ps: seq<Place>, before: seq<string>, lines: seq<string>, b: nat, n: nat, text: Place -> string)
    returns (at: nat)
    requires InFileOrder(ps) && (forall j: nat | j <= n :: Place(b, j) in ps)
    requires lines == before + Map(ps, text) + [""]
    ensures at + n < |lines| && forall k: nat | k <= n :: lines[at + k] == text(Place(b, k))
  {
    hide InFileOrder;
    assert Place(b, 0) in ps;
    var first :| 0 <= first < |ps| && ps[first] == Place(b, 0);
    at := |before| + first;
    RowsAreAdjacent(ps, b, n, first, n);
    forall k: nat | k <= n ensures lines[at + k] == text(Place(b, k)) {
      RowsAreAdjacent(ps, b, n, first, k);
      assert lines[at + k] == Map(ps, text)[first + k];
    }
  }

  lemma OpenClauseRow(ip: Netip, blocks: seq<ParsedBlock>, b: nat, j: nat)
    requires b < |blocks| && MappedZone(ip, blocks[b]).None? && j <= |blocks[b].directives|
    requires blocks[b].section !in ["server", "remote-control", "python", "dynlib", "dnstap"]
    ensures ForExpert(ip, blocks, Place(b, j))
  {
    hide MappedZone, AllConsumed, Verdict;
  }

  lemma WrittenClause(blocks: seq<ParsedBlock>, b: nat)
    requires b < |blocks| && blocks[b].section !in ["server", "remote-control", "python", "dynlib", "dnstap"]
    ensures Written(blocks)(Place(b, 0)) == blocks[b].section + ":"
    ensures forall k | 0 <= k < |blocks[b].directives| ::
              Written(blocks)(Place(b, 1 + k)) == "    " + blocks[b].directives[k].raw
  {
  }

  /**
    A clause without a guided form is proposed as a whole: its header and then every directive as it stands in the
    file, indented and in order, on consecutive lines.
   */
  lemma ClauseAdopted(ip: Netip, current: Settings, custom: string, content: string, b: nat) returns (at: nat)
    requires b < |Blocks(content)| && MappedZone(ip, Blocks(content)[b]).None?
    requires Blocks(content)[b].section !in ["server", "remote-control", "python", "dynlib", "dnstap"]
    ensures var block := Blocks(content)[b];
            var lines := SplitLines(ImportOf(ip, current, custom, Blocks(content)).customAdopted);
            at + |block.directives| < |lines| && lines[at] == block.section + ":" &&
            forall k | 0 <= k < |block.directives| :: lines[at + 1 + k] == "    " + block.directives[k].raw
  {
    hide *;
    var blocks, kept := Blocks(content), TrimSpace(custom);
    var block := blocks[b];
    var ps := AdoptedExactly(ip, current, custom, content);
    forall j: nat | j <= |block.directives| ensures Place(b, j) in ps { OpenClauseRow(ip, blocks, b, j); }
    assert Place(b, 0) in ps;
    var lines := SplitLines(ImportOf(ip, current, custom, blocks).customAdopted);
    at := RunOfRows(ps, if kept == "" then [] else SplitLines(kept) + [""], lines, b, |block.directives|,
                    Written(blocks));
    WrittenClause(blocks, b);
    forall k | 0 <= k < |block.directives| ensures lines[at + 1 + k] == "    " + block.directives[k].raw {
      assert lines[at + (1 + k)] == Written(blocks)(Place(b, 1 + k));
    }
  }

  /** A clause that opens a control surface, loads code or logs queries leaves no line in the proposed text. */
  lemma ClosedClauseAddsNothing(ip: Netip, current: Settings, custom: string, content: string, b: nat)
    returns (ps: seq<Place>)
    requires b < |Blocks(content)| && Blocks(content)[b].section in ["remote-control", "python", "dynlib", "dnstap"]
    ensures var blocks, kept := Blocks(content), TrimSpace(custom);
            var adopted := ImportOf(ip, current, custom, blocks).customAdopted;
            (forall p | p in ps :: RowOf(blocks, p) && p.block != b) &&
            if ps == [] then adopted == kept
            else SplitLines(adopted) ==
                 (if kept == "" then [] else SplitLines(kept) + [""]) + Map(ps, Written(blocks)) + [""]
  {
    hide AllConsumed, MappedZone, Verdict, Blocks, TrimSpace, SplitLines, ImportOf, Written;
    ServerNotBlocked();
    ClosedClauses(Blocks(content)[b].section);
    ps := AdoptedExactly(ip, current, custom, content);
    assert forall p | p in ps :: ForExpert(ip, Blocks(content), p);
  }

  /** What an extractor has taken, and what is guided, fixed or closed, is not proposed to the expert. */
  lemma OnlyExpertLines(ip: Netip, current: Settings, custom: string, content: string, p: Place)
    returns (ps: seq<Place>)
    requires ServerPlace(Blocks(content), p)
    ensures (forall q :: q in ps <==> ForExpert(ip, Blocks(content), q)) && InFileOrder(ps)
    ensures var d := Blocks(content)[p.block].directives[p.index];
            Place(p.block, p.index + 1) in ps <==>
            p !in AllConsumed(ip, Blocks(content)) && Verdict(ip, Blocks(content), d.key, d.value) == Expert
  {
    hide AllConsumed, MappedZone, Verdict, Blocks, TrimSpace, SplitLines, ImportOf, Written;
    ps := AdoptedExactly(ip, current, custom, content);
    assert Place(p.block, p.index + 1).index - 1 == p.index;
  }
}
