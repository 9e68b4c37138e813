/**
  `parseUnboundConf` (import.go:913-958): unbound.conf text split into clause blocks.
 */
module UnboundParse {
  import opened Text
  import opened Seqs

  datatype ParsedDirective = ParsedDirective(key: string, value: string, line: nat, raw: string)

  datatype ParsedBlock = ParsedBlock(section: string, lineStart: nat, directives: seq<ParsedDirective>)

  /** A directive without its place in the file. */
  datatype KV = KV(key: string, value: string)

  /** What one line contributes: nothing, the start of a clause, or a directive of the open clause. */
  datatype Line = Nothing | Opens(section: string) | Holds(kv: KV)

  function Unquote(value: string): string {
    if |value| >= 2 && HasPrefix(value, "\"") && HasSuffix(value, "\"") then value[1..|value| - 1] else value
  }

  function StripComment(raw: string): string { raw[..FirstIndex(raw, '#')] }

  function ReadLine(raw: string): Line {
    var line := TrimSpace(StripComment(raw));
    var i := FirstIndex(line, ':');
    if line == "" || i == |line| then Nothing
    else
      var key := ToLower(TrimSpace(line[..i]));
      var value := TrimSpace(line[i + 1..]);
      if value == "" then Opens(key) else Holds(KV(key, Unquote(value)))
  }

  /** A block is kept unless it is the implicit server clause and still empty. */
  function Flush(block: ParsedBlock): seq<ParsedBlock> {
    if |block.directives| > 0 || block.section != "server" then [block] else []
  }

  function AddDirective(block: ParsedBlock, kv: KV, n: nat, raw: string): ParsedBlock {
    block.(directives := block.directives + [ParsedDirective(kv.key, kv.value, n, TrimSpace(raw))])
  }

  /** The blocks that `lines`, the first of which is line `n`, add while `current` is open. */
  function BlocksFrom(lines: seq<string>, n: nat, current: ParsedBlock): seq<ParsedBlock> {
    if lines == [] then Flush(current)
    else
      match ReadLine(lines[0])
      case Nothing => BlocksFrom(lines[1..], n + 1, current)
      case Opens(section) => Flush(current) + BlocksFrom(lines[1..], n + 1, ParsedBlock(section, n, []))
      case Holds(kv) => BlocksFrom(lines[1..], n + 1, AddDirective(current, kv, n, lines[0]))
  }

  const IMPLICIT_SERVER: ParsedBlock := ParsedBlock("server", 1, [])

  function Blocks(content: string): seq<ParsedBlock> { BlocksFrom(SplitLines(content), 1, IMPLICIT_SERVER) }

  method ParseUnboundConf(content: string) returns (blocks: seq<ParsedBlock>)
    ensures blocks == Blocks(content)
  {
    hide ReadLine, TrimSpace, AddDirective, Flush, SplitLines;
    blocks := [];
    var current := IMPLICIT_SERVER;
    var lines := SplitLines(content);
    assert lines[0..] == lines;
    for i := 0 to |lines|
      invariant blocks + BlocksFrom(lines[i..], i + 1, current) == Blocks(content)
    {
      assert lines[i..][0] == lines[i] && lines[i..][1..] == lines[i + 1..];
      match ReadLine(lines[i])
      case Nothing =>
      case Opens(section) =>
        blocks := blocks + Flush(current);
        current := ParsedBlock(section, i + 1, []);
      case Holds(kv) =>
        current := AddDirective(current, kv, i + 1, lines[i]);
    }
    assert lines[|lines|..] == [];
    blocks := blocks + Flush(current);
  }

  // ---------- nothing is lost or reordered ----------

  /** The directive on line `n`, if it holds one. */
  function LineDirective(line: string, n: nat): seq<ParsedDirective> {
    match ReadLine(line)
    case Holds(kv) => [ParsedDirective(kv.key, kv.value, n, TrimSpace(line))]
    case _ => []
  }

  /** The directives on `lines`, whatever clause they fall into. */
  function LineDirectives(lines: seq<string>, n: nat): seq<ParsedDirective> {
    if lines == [] then [] else LineDirective(lines[0], n) + LineDirectives(lines[1..], n + 1)
  }

  function BlockDirectives(block: ParsedBlock): seq<ParsedDirective> { block.directives }

  lemma BlocksFromPlainLine(lines: seq<string>, n: nat, current: ParsedBlock)
    requires lines != [] && !ReadLine(lines[0]).Opens?
    ensures BlocksFrom(lines, n, current) ==
            BlocksFrom(lines[1..], n + 1, current.(directives := current.directives + LineDirective(lines[0], n)))
  {
    hide ReadLine, TrimSpace;
    assert current.directives + [] == current.directives;
  }

  lemma BlocksFromOpening(lines: seq<string>, n: nat, current: ParsedBlock)
    requires lines != [] && ReadLine(lines[0]).Opens?
    ensures BlocksFrom(lines, n, current) ==
            Flush(current) + BlocksFrom(lines[1..], n + 1, ParsedBlock(ReadLine(lines[0]).section, n, []))
  {
  }

  lemma {:induction false} BlocksFromKeepsDirectives(lines: seq<string>, n: nat, current: ParsedBlock)
    ensures Flat(BlocksFrom(lines, n, current), BlockDirectives) == current.directives + LineDirectives(lines, n)
  {
    FlatFlush(current);
    if lines != [] {
      hide ReadLine, TrimSpace, BlocksFrom, Flush;
      if ReadLine(lines[0]).Opens? {
        var block := ParsedBlock(ReadLine(lines[0]).section, n, []);
        BlocksFromOpening(lines, n, current);
        BlocksFromKeepsDirectives(lines[1..], n + 1, block);
        FlatConcat(Flush(current), BlocksFrom(lines[1..], n + 1, block), BlockDirectives);
        assert LineDirectives(lines, n) == LineDirectives(lines[1..], n + 1);
      } else {
        BlocksFromPlainLine(lines, n, current);
        var next := current.(directives := current.directives + LineDirective(lines[0], n));
        BlocksFromKeepsDirectives(lines[1..], n + 1, next);
      }
    }
  }

  lemma FlatFlush(block: ParsedBlock)
    ensures Flat(Flush(block), BlockDirectives) == block.directives
  {
    if Flush(block) != [] {
      assert Flush(block)[..0] == [];
      assert Flat(Flush(block), BlockDirectives) == Flat([], BlockDirectives) + block.directives;
    }
  }

  /** Every directive line of the file is in exactly one block, in file order, with its line number. */
  lemma ParseKeepsDirectives(content: string)
    ensures Flat(Blocks(content), BlockDirectives) == LineDirectives(SplitLines(content), 1)
  {
    BlocksFromKeepsDirectives(SplitLines(content), 1, IMPLICIT_SERVER);
  }

  // ---------- where a block and its directives come from ----------

  /** A block begins below its header line, or at the top of the file when it is the implicit server clause. */
  ghost predicate BeginsAt(lines: seq<string>, block: ParsedBlock, open: nat) {
    (open == 0 && block.section == "server" && block.lineStart == 1) ||
    (open == block.lineStart && 0 < open <= |lines| && ReadLine(lines[open - 1]) == Opens(block.section))
  }

  /** The directive is what its line says, and no clause opens between the beginning of the block and that line. */
  ghost predicate StandsIn(lines: seq<string>, open: nat, d: ParsedDirective) {
    open < d.line <= |lines| && ReadLine(lines[d.line - 1]) == Holds(KV(d.key, d.value)) &&
    d.raw == TrimSpace(lines[d.line - 1]) && forall j | open <= j < d.line :: !ReadLine(lines[j]).Opens?
  }

  ghost predicate PlacedAt(lines: seq<string>, block: ParsedBlock, open: nat) {
    BeginsAt(lines, block, open) && forall i | 0 <= i < |block.directives| :: StandsIn(lines, open, block.directives[i])
  }

  ghost predicate Placed(lines: seq<string>, block: ParsedBlock) { exists open :: PlacedAt(lines, block, open) }

  lemma {:induction false} BlocksFromPlaced(all: seq<string>, k: nat, current: ParsedBlock, open: nat)
    requires open <= k <= |all| && PlacedAt(all, current, open)
    requires forall j | open <= j < k :: !ReadLine(all[j]).Opens?
    ensures forall b | b in BlocksFrom(all[k..], k + 1, current) :: Placed(all, b)
    decreases |all| - k
  {
    hide ReadLine, TrimSpace;
    assert Placed(all, current);
    if k < |all| {
      assert all[k..][0] == all[k] && all[k..][1..] == all[k + 1..];
      match ReadLine(all[k])
      case Nothing =>
        BlocksFromPlaced(all, k + 1, current, open);
      case Opens(section) =>
        var next := ParsedBlock(section, k + 1, []);
        assert PlacedAt(all, next, k + 1);
        BlocksFromPlaced(all, k + 1, next, k + 1);
      case Holds(kv) =>
        var next := AddDirective(current, kv, k + 1, all[k]);
        assert StandsIn(all, open, ParsedDirective(kv.key, kv.value, k + 1, TrimSpace(all[k])));
        BlocksFromPlaced(all, k + 1, next, open);
    }
  }

  /** Every directive is on the line it names, in the clause whose header is the nearest one above that line. */
  lemma DirectivesStandWhereTheySay(content: string)
    ensures forall b | b in Blocks(content) :: Placed(SplitLines(content), b)
  {
    hide ReadLine, TrimSpace, SplitLines, BlocksFrom;
    var lines := SplitLines(content);
    assert lines[0..] == lines && PlacedAt(lines, IMPLICIT_SERVER, 0);
    BlocksFromPlaced(lines, 0, IMPLICIT_SERVER, 0);
  }

  // ---------- views without places ----------

  function KVOf(d: ParsedDirective): KV { KV(d.key, d.value) }

  function KVs(directives: seq<ParsedDirective>): seq<KV> { Map(directives, KVOf) }

  function LineKV(line: string): seq<KV> { if ReadLine(line).Holds? then [ReadLine(line).kv] else [] }

  function LineKVs(lines: seq<string>): seq<KV> { Flat(lines, LineKV) }

  lemma {:induction false} LineDirectivesKVs(lines: seq<string>, n: nat)
    ensures KVs(LineDirectives(lines, n)) == LineKVs(lines)
  {
    hide ReadLine, TrimSpace;
    if lines != [] {
      LineDirectivesKVs(lines[1..], n + 1);
      FlatConcat([lines[0]], lines[1..], LineKV);
      assert lines == [lines[0]] + lines[1..];
      assert [lines[0]][..0] == [];
      assert Flat([lines[0]], LineKV) == Flat([], LineKV) + LineKV(lines[0]);
    }
  }

  /** Lines that open no clause. */
  ghost predicate Plain(lines: seq<string>) { forall i | 0 <= i < |lines| :: !ReadLine(lines[i]).Opens? }

  /** Plain lines only add their directives to the open clause. */
  lemma {:induction false} BlocksFromPlain(lines: seq<string>, rest: seq<string>, n: nat, current: ParsedBlock)
    requires Plain(lines)
    ensures BlocksFrom(lines + rest, n, current) ==
            BlocksFrom(rest, n + |lines|, current.(directives := current.directives + LineDirectives(lines, n)))
  {
    hide ReadLine, LineDirective, BlocksFrom;
    if lines == [] {
      assert lines + rest == rest && current.directives + [] == current.directives;
    } else {
      assert (lines + rest)[1..] == lines[1..] + rest && (lines + rest)[0] == lines[0];
      BlocksFromPlainLine(lines + rest, n, current);
      var next := current.(directives := current.directives + LineDirective(lines[0], n));
      BlocksFromPlain(lines[1..], rest, n + 1, next);
      assert next.directives + LineDirectives(lines[1..], n + 1) == current.directives + LineDirectives(lines, n);
    }
  }
}
