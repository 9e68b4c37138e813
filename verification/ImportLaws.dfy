/**
  What the importer promises about every input: the extractors never claim the same line, no directive
  of a server block goes unreported, expert text is exactly the unreported-as-guided raw lines, and
  importing the same file again changes nothing.
 */
module UnboundImportLaws {
  import opened Text
  import opened Seqs
  import opened UnboundSettings
  import opened UnboundParse
  import opened UnboundExtract
  import opened UnboundGroups
  import opened UnboundImport

  // ---------- the extractors consume disjoint places ----------

  lemma LocalConsumedLine(ip: Netip, blocks: seq<ParsedBlock>, p: Place)
    requires LocalConsumed(ip, blocks, p)
    ensures var kv := KVOf(blocks[p.block].directives[p.index]);
            IsData(kv) || (kv.key == "local-zone" && forall n :: !IsReverseLine(kv, n))
  {
    hide ParseLocalZoneValue, ValidZoneName, BuildLocalZone, NetworkOf;
    var kvs := KVs(blocks[p.block].directives);
    var start :| 0 <= start <= p.index && GroupAt(ip, kvs, start).Some? && p.index < StopAfter(kvs, start);
    assert kvs[p.index] == KVOf(blocks[p.block].directives[p.index]);
  }

  /** No directive is consumed by two extractors. */
  lemma ConsumedOnce(ip: Netip, blocks: seq<ParsedBlock>, p: Place)
    ensures LocalConsumed(ip, blocks, p) ==>
              !ReverseConsumed(blocks, p) && !ModeConsumed(blocks, p) && !ProfileConsumed(blocks, p)
    ensures ReverseConsumed(blocks, p) ==> !ModeConsumed(blocks, p) && !ProfileConsumed(blocks, p)
    ensures ModeConsumed(blocks, p) ==> !ProfileConsumed(blocks, p)
  {
    hide InGroup, NetworkModeOf, ProfileOf, PolicyOf, ParseLocalZoneValue, NetworkOf;
    if LocalConsumed(ip, blocks, p) {
      LocalConsumedLine(ip, blocks, p);
    }
  }

  // ---------- every other directive is reported once ----------

  /** The unconsumed indices below `n`, in file order. */
  ghost function Unconsumed(consumed: iset<Place>, b: nat, n: nat): seq<int> {
    if n == 0 then []
    else Unconsumed(consumed, b, n - 1) + (if Place(b, n - 1) in consumed then [] else [n - 1])
  }

  lemma {:induction false} UnconsumedExact(consumed: iset<Place>, b: nat, n: nat)
    ensures forall i :: i in Unconsumed(consumed, b, n) <==> 0 <= i < n && Place(b, i) !in consumed
    ensures forall j, k | 0 <= j < k < |Unconsumed(consumed, b, n)| ::
              Unconsumed(consumed, b, n)[j] < Unconsumed(consumed, b, n)[k]
  {
    if n > 0 {
      UnconsumedExact(consumed, b, n - 1);
      var before := Unconsumed(consumed, b, n - 1);
      forall j | 0 <= j < |before| ensures before[j] < n - 1 { assert before[j] in before; }
    }
  }

  ghost function FindingAt(names: set<string>, ds: seq<ParsedDirective>): int -> Finding {
    (i: int) => if 0 <= i < |ds| then DirectiveFinding(names, ds[i]) else Finding("", 0, "", "", Blocked)
  }

  ghost function ExpertAt(names: set<string>, ds: seq<ParsedDirective>): int -> seq<string> {
    (i: int) => if 0 <= i < |ds| then DirectiveExpert(names, ds[i]) else []
  }

  lemma {:induction false} SweepDirectivesFindings(st: Sweep, names: set<string>, consumed: iset<Place>, b: nat,
                                                  ds: seq<ParsedDirective>, n: nat)
    requires n <= |ds|
    ensures SweepDirectives(st, names, consumed, b, ds, n).findings ==
            st.findings + Map(Unconsumed(consumed, b, n), FindingAt(names, ds))
  {
    hide Apply, DirectiveFinding, DirectiveExpert;
    if n > 0 {
      SweepDirectivesFindings(st, names, consumed, b, ds, n - 1);
      if Place(b, n - 1) !in consumed {
        var before := Unconsumed(consumed, b, n - 1);
        assert Map(before + [n - 1], FindingAt(names, ds)) ==
               Map(before, FindingAt(names, ds)) + [DirectiveFinding(names, ds[n - 1])];
      }
    }
  }

  lemma {:induction false} SweepDirectivesExpert(st: Sweep, names: set<string>, consumed: iset<Place>, b: nat,
                                                ds: seq<ParsedDirective>, n: nat)
    requires n <= |ds|
    ensures SweepDirectives(st, names, consumed, b, ds, n).expert ==
            st.expert + Flat(Unconsumed(consumed, b, n), ExpertAt(names, ds))
  {
    hide Apply, DirectiveFinding, DirectiveExpert, Flat;
    if n == 0 {
      FlatNothing(ExpertAt(names, ds));
    } else {
      SweepDirectivesExpert(st, names, consumed, b, ds, n - 1);
      var before := Unconsumed(consumed, b, n - 1);
      if Place(b, n - 1) !in consumed {
        FlatOne(before, n - 1, ExpertAt(names, ds));
        var line := DirectiveExpert(names, ds[n - 1]);
        var prev := SweepDirectives(st, names, consumed, b, ds, n - 1);
        assert SweepDirectives(st, names, consumed, b, ds, n).expert == prev.expert + line;
        Associative(st.expert, Flat(before, ExpertAt(names, ds)), line);
      } else {
        assert Unconsumed(consumed, b, n) == before;
      }
    }
  }

  /** What one block contributes to the report. */
  ghost function BlockFindings(names: set<string>, consumed: iset<Place>, mapped: iset<nat>, b: nat,
                               block: ParsedBlock): seq<Finding> {
    if b in mapped then []
    else if block.section == "server" then
      Map(Unconsumed(consumed, b, |block.directives|), FindingAt(names, block.directives))
    else [ClauseFinding(block)]
  }

  ghost function BlockExpert(names: set<string>, consumed: iset<Place>, mapped: iset<nat>, b: nat,
                             block: ParsedBlock): seq<string> {
    if b in mapped then []
    else if block.section == "server" then
      Flat(Unconsumed(consumed, b, |block.directives|), ExpertAt(names, block.directives))
    else ClauseLines(block)
  }

  ghost function AllFindings(names: set<string>, consumed: iset<Place>, mapped: iset<nat>, blocks: seq<ParsedBlock>,
                             n: nat): seq<Finding>
    requires n <= |blocks|
  {
    if n == 0 then []
    else
      AllFindings(names, consumed, mapped, blocks, n - 1) +
      BlockFindings(names, consumed, mapped, n - 1, blocks[n - 1])
  }

  ghost function AllExpert(names: set<string>, consumed: iset<Place>, mapped: iset<nat>, blocks: seq<ParsedBlock>,
                           n: nat): seq<string>
    requires n <= |blocks|
  {
    if n == 0 then []
    else AllExpert(names, consumed, mapped, blocks, n - 1) + BlockExpert(names, consumed, mapped, n - 1, blocks[n - 1])
  }

  lemma SweepBlockReports(st: Sweep, names: set<string>, consumed: iset<Place>, mapped: iset<nat>, b: nat,
                          block: ParsedBlock)
    ensures SweepBlock(st, names, consumed, mapped, b, block).findings ==
            st.findings + BlockFindings(names, consumed, mapped, b, block)
    ensures SweepBlock(st, names, consumed, mapped, b, block).expert ==
            st.expert + BlockExpert(names, consumed, mapped, b, block)
  {
    hide SweepDirectives, ClauseFinding, ClauseLines, FindingAt, ExpertAt;
    SweepDirectivesFindings(st, names, consumed, b, block.directives, |block.directives|);
    SweepDirectivesExpert(st, names, consumed, b, block.directives, |block.directives|);
  }

  lemma {:induction false} SweepBlocksReports(st: Sweep, names: set<string>, consumed: iset<Place>, mapped: iset<nat>,
                                             blocks: seq<ParsedBlock>, n: nat)
    requires n <= |blocks|
    ensures SweepBlocks(st, names, consumed, mapped, blocks, n).findings ==
            st.findings + AllFindings(names, consumed, mapped, blocks, n)
    ensures SweepBlocks(st, names, consumed, mapped, blocks, n).expert ==
            st.expert + AllExpert(names, consumed, mapped, blocks, n)
  {
    hide SweepBlock, BlockFindings, BlockExpert;
    if n > 0 {
      SweepBlocksReports(st, names, consumed, mapped, blocks, n - 1);
      var before := SweepBlocks(st, names, consumed, mapped, blocks, n - 1);
      SweepBlockReports(before, names, consumed, mapped, n - 1, blocks[n - 1]);
      Associative(st.findings, AllFindings(names, consumed, mapped, blocks, n - 1),
                  BlockFindings(names, consumed, mapped, n - 1, blocks[n - 1]));
      Associative(st.expert, AllExpert(names, consumed, mapped, blocks, n - 1),
                  BlockExpert(names, consumed, mapped, n - 1, blocks[n - 1]));
    }
  }

  /** Report and adopted text of an import, independent of the settings imported into. */
  lemma ReportIsExact(ip: Netip, current: Settings, custom: string, blocks: seq<ParsedBlock>)
    ensures var names, consumed, mapped := ZoneNames(MappedZones(ip, blocks)), AllConsumed(ip, blocks),
            Mapped(ip, blocks);
            var r := ImportOf(ip, current, custom, blocks);
            r.findings == ExtractorFindings(ip, blocks) + AllFindings(names, consumed, mapped, blocks, |blocks|) &&
            r.customAdopted == Adopt(custom, AllExpert(names, consumed, mapped, blocks, |blocks|))
  {
    hide AllConsumed, Mapped, MappedZones, ZoneNames, SweepBlocks, AllFindings, AllExpert, Combine, Adopt,
      ExtractorFindings;
    var zones := MappedZones(ip, blocks);
    SweepBlocksReports(Sweep(current, zones, [], [], []), ZoneNames(zones), AllConsumed(ip, blocks), Mapped(ip, blocks),
                       blocks, |blocks|);
    assert forall fs: seq<Finding> :: [] + fs == fs;
    assert forall ls: seq<string> :: [] + ls == ls;
  }

  lemma {:induction false} ReportContains(names: set<string>, consumed: iset<Place>, mapped: iset<nat>,
                                         blocks: seq<ParsedBlock>, n: nat, b: nat)
    requires b < n <= |blocks|
    ensures forall f | f in BlockFindings(names, consumed, mapped, b, blocks[b]) ::
              f in AllFindings(names, consumed, mapped, blocks, n)
    ensures forall e | e in BlockExpert(names, consumed, mapped, b, blocks[b]) ::
              e in AllExpert(names, consumed, mapped, blocks, n)
  {
    hide BlockFindings, BlockExpert;
    if b < n - 1 {
      ReportContains(names, consumed, mapped, blocks, n - 1, b);
    }
  }

  /** An unconsumed directive is in what its block contributes. */
  lemma BlockReports(names: set<string>, consumed: iset<Place>, mapped: iset<nat>, b: nat, block: ParsedBlock, i: nat)
    requires b !in mapped && block.section == "server" && i < |block.directives| && Place(b, i) !in consumed
    ensures DirectiveFinding(names, block.directives[i]) in BlockFindings(names, consumed, mapped, b, block)
    ensures forall e | e in DirectiveExpert(names, block.directives[i]) ::
              e in BlockExpert(names, consumed, mapped, b, block)
  {
    hide DirectiveFinding, DirectiveExpert, Flat;
    var n := |block.directives|;
    UnconsumedExact(consumed, b, n);
    var free := Unconsumed(consumed, b, n);
    hide Unconsumed;
    var k :| 0 <= k < |free| && free[k] == i;
    var findings := Map(free, FindingAt(names, block.directives));
    assert findings[k] == DirectiveFinding(names, block.directives[i]);
    assert findings[k] in findings;
    FlatMember(free, ExpertAt(names, block.directives), k);
  }

  /**
    Every directive of a server block is consumed by an extractor, or has its own finding; and when that
    finding is `Expert` its raw line is among the adopted lines.
   */
  lemma NoServerDirectiveDropped(ip: Netip, current: Settings, custom: string, blocks: seq<ParsedBlock>, p: Place)
    requires ServerPlace(blocks, p) && p !in AllConsumed(ip, blocks)
    ensures var names := ZoneNames(MappedZones(ip, blocks));
            var d := blocks[p.block].directives[p.index];
            DirectiveFinding(names, d) in ImportOf(ip, current, custom, blocks).findings &&
            (DispositionOf(names, KVOf(d)) == Expert ==>
               d.raw in AllExpert(names, AllConsumed(ip, blocks), Mapped(ip, blocks), blocks, |blocks|))
  {
    hide AllConsumed, ZoneNames, MappedZones, ImportOf, DispositionOf, MappedZone, AllFindings, AllExpert,
      BlockFindings, BlockExpert, DirectiveFinding, ExtractorFindings;
    var names, consumed, mapped := ZoneNames(MappedZones(ip, blocks)), AllConsumed(ip, blocks), Mapped(ip, blocks);
    ServerBlocksAreUnmapped(ip, blocks[p.block]);
    ReportIsExact(ip, current, custom, blocks);
    ReportContains(names, consumed, mapped, blocks, |blocks|, p.block);
    BlockReports(names, consumed, mapped, p.block, blocks[p.block], p.index);
  }

  lemma ServerBlocksAreUnmapped(ip: Netip, block: ParsedBlock)
    requires block.section == "server"
    ensures MappedZone(ip, block).None?
  {
  }

  // ---------- importing again changes nothing ----------

  function Switch(c: Settings, f: Field): bool
    requires IsSwitch(f)
  {
    match f
    case QnameMinimisation => c.qnameMinimisation
    case Prefetch => c.prefetch
    case PrefetchKey => c.prefetchKey
    case AggressiveNsec => c.aggressiveNsec
    case ServeExpired => c.serveExpired
  }

  function Number(c: Settings, f: Field): int
    requires !IsSwitch(f)
  {
    match f
    case EdnsBufferSize => c.ednsBufferSize
    case Verbosity => c.logVerbosity
    case ServeExpiredTtl => c.serveExpiredTtl
    case ServeExpiredClientTimeout => c.serveExpiredClientTimeout
    case CacheMinTtl => c.cacheMinTtl
    case CacheMaxTtl => c.cacheMaxTtl
    case NumThreads => c.threads
  }

  ghost predicate SameField(a: Settings, b: Settings, f: Field) {
    if IsSwitch(f) then Switch(a, f) == Switch(b, f) else Number(a, f) == Number(b, f)
  }

  /** Field by field: both runs left the field alone, or both gave it the same value. */
  ghost predicate Agrees(x: Settings, y: Settings, rx: Settings, ry: Settings) {
    forall f: Field :: (SameField(rx, x, f) && SameField(ry, y, f)) || SameField(rx, ry, f)
  }

  lemma SetSwitchEffect(c: Settings, f: Field, v: bool, g: Field)
    requires IsSwitch(f)
    ensures if g == f then Switch(SetSwitch(c, f, v), g) == v else SameField(SetSwitch(c, f, v), c, g)
  {
  }

  lemma SetNumberEffect(c: Settings, f: Field, v: int, g: Field)
    requires !IsSwitch(f)
    ensures if g == f then Number(SetNumber(c, f, v), g) == v else SameField(SetNumber(c, f, v), c, g)
  {
  }

  lemma WriteAgrees(x: Settings, y: Settings, rx: Settings, ry: Settings, f: Field, value: string)
    requires Agrees(x, y, rx, ry)
    ensures Agrees(x, y, WriteField(rx, f, value), WriteField(ry, f, value))
  {
    hide ParseSwitch, Atoi, SetSwitch, SetNumber, Switch, Number, IsSwitch;
    var wx, wy := WriteField(rx, f, value), WriteField(ry, f, value);
    if Parses(f, value) {
      forall g: Field ensures (SameField(wx, x, g) && SameField(wy, y, g)) || SameField(wx, wy, g) {
        if IsSwitch(f) {
          SetSwitchEffect(rx, f, ParseSwitch(value).value, g);
          SetSwitchEffect(ry, f, ParseSwitch(value).value, g);
        } else {
          SetNumberEffect(rx, f, Atoi(value).value, g);
          SetNumberEffect(ry, f, Atoi(value).value, g);
        }
        assert (SameField(rx, x, g) && SameField(ry, y, g)) || SameField(rx, ry, g);
      }
    }
  }

  lemma FieldsDetermine(a: Settings, b: Settings)
    requires SameLists(a, b) && forall f: Field :: SameField(a, b, f)
    ensures a == b
  {
    assert SameField(a, b, QnameMinimisation) && SameField(a, b, Prefetch) && SameField(a, b, PrefetchKey);
    assert SameField(a, b, AggressiveNsec) && SameField(a, b, ServeExpired) && SameField(a, b, EdnsBufferSize);
    assert SameField(a, b, Verbosity) && SameField(a, b, ServeExpiredTtl);
    assert SameField(a, b, ServeExpiredClientTimeout) && SameField(a, b, CacheMinTtl);
    assert SameField(a, b, CacheMaxTtl) && SameField(a, b, NumThreads);
  }

  /** Two sweeps over the same blocks from different settings. */
  ghost predicate Twin(x: Settings, y: Settings, sx: Sweep, sy: Sweep) {
    Agrees(x, y, sx.candidate, sy.candidate) && sx.zones == sy.zones && sx.privateDomains == sy.privateDomains
  }

  lemma ApplyTwin(x: Settings, y: Settings, sx: Sweep, sy: Sweep, names: set<string>, kv: KV)
    requires Twin(x, y, sx, sy)
    ensures Twin(x, y, Apply(sx, names, kv), Apply(sy, names, kv))
  {
    hide WriteField, FieldOf, Agrees, OptIn;
    if FieldOf(kv.key).Some? {
      WriteAgrees(x, y, sx.candidate, sy.candidate, FieldOf(kv.key).value, kv.value);
    }
  }

  lemma {:induction false} SweepDirectivesTwin(x: Settings, y: Settings, sx: Sweep, sy: Sweep, names: set<string>,
                                              consumed: iset<Place>, b: nat, ds: seq<ParsedDirective>, n: nat)
    requires n <= |ds| && Twin(x, y, sx, sy)
    ensures Twin(x, y, SweepDirectives(sx, names, consumed, b, ds, n), SweepDirectives(sy, names, consumed, b, ds, n))
  {
    hide Agrees, Apply, DirectiveFinding, DirectiveExpert;
    if n > 0 {
      SweepDirectivesTwin(x, y, sx, sy, names, consumed, b, ds, n - 1);
      ApplyTwin(x, y, SweepDirectives(sx, names, consumed, b, ds, n - 1),
                SweepDirectives(sy, names, consumed, b, ds, n - 1), names, KVOf(ds[n - 1]));
    }
  }

  lemma {:induction false} SweepBlocksTwin(x: Settings, y: Settings, sx: Sweep, sy: Sweep, names: set<string>,
                                          consumed: iset<Place>, mapped: iset<nat>, blocks: seq<ParsedBlock>, n: nat)
    requires n <= |blocks| && Twin(x, y, sx, sy)
    ensures Twin(x, y, SweepBlocks(sx, names, consumed, mapped, blocks, n),
                 SweepBlocks(sy, names, consumed, mapped, blocks, n))
  {
    hide Agrees, SweepDirectives, ClauseFinding, ClauseLines;
    if n > 0 {
      SweepBlocksTwin(x, y, sx, sy, names, consumed, mapped, blocks, n - 1);
      SweepDirectivesTwin(x, y, SweepBlocks(sx, names, consumed, mapped, blocks, n - 1),
                          SweepBlocks(sy, names, consumed, mapped, blocks, n - 1), names, consumed, n - 1,
                          blocks[n - 1].directives, |blocks[n - 1].directives|);
    }
  }

  // Merging by name: where the last incoming item of each name ends up.

  ghost predicate FirstOf<T(!new)>(xs: seq<T>, p: nat, nameOf: T -> string) {
    p < |xs| && forall k | 0 <= k < p :: nameOf(xs[k]) != nameOf(xs[p])
  }

  /** The last element with that name. */
  ghost predicate LastNamed<T(!new)>(xs: seq<T>, item: T, nameOf: T -> string) {
    exists k | 0 <= k < |xs| :: xs[k] == item && forall j | k < j < |xs| :: nameOf(xs[j]) != nameOf(item)
  }

  ghost predicate HasName<T(!new)>(xs: seq<T>, name: string, nameOf: T -> string) {
    exists k | 0 <= k < |xs| :: nameOf(xs[k]) == name
  }

  lemma FirstPosition<T(!new)>(xs: seq<T>, name: string, nameOf: T -> string) returns (p: nat)
    ensures p <= |xs| && forall k | 0 <= k < p :: nameOf(xs[k]) != name
    ensures p < |xs| ==> nameOf(xs[p]) == name
  {
    p := 0;
    while p < |xs| && nameOf(xs[p]) != name
      invariant p <= |xs| && forall k | 0 <= k < p :: nameOf(xs[k]) != name
    {
      p := p + 1;
    }
  }

  /** `m` holds, at the first position of every incoming name, the last incoming item of that name. */
  ghost predicate Holds<T(!new)>(m: seq<T>, incoming: seq<T>, nameOf: T -> string) {
    forall item | LastNamed(incoming, item, nameOf) :: exists p: nat :: FirstOf(m, p, nameOf) && m[p] == item
  }

  lemma UpsertEffect<T(!new)>(xs: seq<T>, item: T, nameOf: T -> string) returns (p: nat)
    ensures p <= |xs| && Upsert(xs, item, nameOf) == if p < |xs| then xs[p := item] else xs + [item]
    ensures FirstOf(Upsert(xs, item, nameOf), p, nameOf) && Upsert(xs, item, nameOf)[p] == item
    ensures p < |xs| ==> nameOf(xs[p]) == nameOf(item)
    ensures forall k | 0 <= k < p :: nameOf(xs[k]) != nameOf(item)
  {
    p := FirstPosition(xs, nameOf(item), nameOf);
    UpsertSplit(xs, item, nameOf, p);
  }

  lemma {:induction false} MergeHolds<T(!new)>(existing: seq<T>, incoming: seq<T>, nameOf: T -> string)
    ensures Holds(MergeByName(existing, incoming, nameOf), incoming, nameOf)
  {
    if incoming != [] {
      var n := |incoming| - 1;
      var last := incoming[n];
      MergeHolds(existing, incoming[..n], nameOf);
      var before := MergeByName(existing, incoming[..n], nameOf);
      var p := UpsertEffect(before, last, nameOf);
      var after := MergeByName(existing, incoming, nameOf);
      forall item | LastNamed(incoming, item, nameOf)
        ensures exists q: nat :: FirstOf(after, q, nameOf) && after[q] == item
      {
        var k :| 0 <= k < |incoming| && incoming[k] == item &&
          forall j | k < j < |incoming| :: nameOf(incoming[j]) != nameOf(item);
        if k < n {
          assert incoming[..n][k] == item;
          assert LastNamed(incoming[..n], item, nameOf);
          var q: nat :| FirstOf(before, q, nameOf) && before[q] == item;
          assert nameOf(incoming[n]) != nameOf(item);
          assert q != p;
          assert FirstOf(after, q, nameOf) && after[q] == item;
        } else {
          assert after[p] == item;
        }
      }
    }
  }

  /** Merging a prefix into a sequence that already holds the merge never leaves the names. */
  lemma {:induction false} MergeSameNames<T(!new)>(m: seq<T>, incoming: seq<T>, nameOf: T -> string)
    requires forall k | 0 <= k < |incoming| :: HasName(m, nameOf(incoming[k]), nameOf)
    ensures |MergeByName(m, incoming, nameOf)| == |m|
    ensures forall k | 0 <= k < |m| :: nameOf(MergeByName(m, incoming, nameOf)[k]) == nameOf(m[k])
    ensures forall k | 0 <= k < |m| && MergeByName(m, incoming, nameOf)[k] != m[k] ::
              FirstOf(m, k, nameOf) && HasName(incoming, nameOf(m[k]), nameOf)
  {
    if incoming != [] {
      var n := |incoming| - 1;
      var last := incoming[n];
      MergeSameNames(m, incoming[..n], nameOf);
      var before := MergeByName(m, incoming[..n], nameOf);
      var p := UpsertEffect(before, last, nameOf);
      var k0 :| 0 <= k0 < |m| && nameOf(m[k0]) == nameOf(last);
      assert nameOf(before[k0]) == nameOf(last);
      assert p <= k0;
      var after := MergeByName(m, incoming, nameOf);
      forall k | 0 <= k < |m| && after[k] != m[k]
        ensures FirstOf(m, k, nameOf) && HasName(incoming, nameOf(m[k]), nameOf)
      {
        if k == p {
          assert nameOf(incoming[n]) == nameOf(m[k]);
        } else {
          var j :| 0 <= j < n && nameOf(incoming[..n][j]) == nameOf(m[k]);
          assert nameOf(incoming[j]) == nameOf(m[k]);
        }
      }
    }
  }

  lemma LastOfName<T(!new)>(xs: seq<T>, name: string, nameOf: T -> string) returns (item: T)
    requires HasName(xs, name, nameOf)
    ensures LastNamed(xs, item, nameOf) && nameOf(item) == name
  {
    var k := |xs| - 1;
    while nameOf(xs[k]) != name
      invariant 0 <= k < |xs| && (forall j | k < j < |xs| :: nameOf(xs[j]) != name)
      invariant exists j | 0 <= j <= k :: nameOf(xs[j]) == name
      decreases k
    {
      k := k - 1;
    }
    item := xs[k];
  }

  // Which of the merged items there are in the result.

  /** A merge leaves the item alone: its name does not come in, or another item of that name stands before it. */
  ghost predicate LeftAlone<T(!new)>(existing: seq<T>, incoming: seq<T>, item: T, nameOf: T -> string) {
    exists i: nat | i < |existing| ::
      existing[i] == item && !(FirstOf(existing, i, nameOf) && HasName(incoming, nameOf(item), nameOf))
  }

  /** Position by position: the places of old items, and new ones behind them. */
  ghost predicate MergedAs<T(!new)>(existing: seq<T>, incoming: seq<T>, m: seq<T>, nameOf: T -> string) {
    |m| >= |existing| &&
    (forall p: nat | p < |existing| ::
       nameOf(m[p]) == nameOf(existing[p]) &&
       if FirstOf(existing, p, nameOf) && HasName(incoming, nameOf(existing[p]), nameOf)
       then LastNamed(incoming, m[p], nameOf) else m[p] == existing[p]) &&
    (forall p: nat | |existing| <= p < |m| :: FirstOf(m, p, nameOf) && LastNamed(incoming, m[p], nameOf))
  }

  lemma {:induction false} MergePositions<T(!new)>(existing: seq<T>, incoming: seq<T>, nameOf: T -> string)
    ensures MergedAs(existing, incoming, MergeByName(existing, incoming, nameOf), nameOf)
  {
    if incoming != [] {
      var n := |incoming| - 1;
      var last := incoming[n];
      MergePositions(existing, incoming[..n], nameOf);
      var before, after := MergeByName(existing, incoming[..n], nameOf), MergeByName(existing, incoming, nameOf);
      var q := UpsertEffect(before, last, nameOf);
      assert LastNamed(incoming, last, nameOf);
      forall name
        ensures HasName(incoming, name, nameOf) <==> HasName(incoming[..n], name, nameOf) || name == nameOf(last)
      {
        NamesSnoc(incoming, name, nameOf);
      }
      forall p: nat | p < |existing|
        ensures nameOf(after[p]) == nameOf(existing[p])
        ensures if FirstOf(existing, p, nameOf) && HasName(incoming, nameOf(existing[p]), nameOf)
                then LastNamed(incoming, after[p], nameOf) else after[p] == existing[p]
      {
        if p != q && LastNamed(incoming[..n], after[p], nameOf) {
          if nameOf(after[p]) != nameOf(last) {
            LastSnoc(incoming, after[p], nameOf);
          }
        }
      }
      forall p: nat | |existing| <= p < |after|
        ensures FirstOf(after, p, nameOf) && LastNamed(incoming, after[p], nameOf)
      {
        if p != q {
          assert nameOf(after[p]) != nameOf(last);
          LastSnoc(incoming, after[p], nameOf);
        }
      }
    }
  }

  lemma NamesSnoc<T(!new)>(xs: seq<T>, name: string, nameOf: T -> string)
    requires xs != []
    ensures HasName(xs, name, nameOf) <==>
            HasName(xs[..|xs| - 1], name, nameOf) || name == nameOf(xs[|xs| - 1])
  {
    var n := |xs| - 1;
    if k :| 0 <= k < n && nameOf(xs[..n][k]) == name {
      assert nameOf(xs[k]) == name;
    }
    if k :| 0 <= k < |xs| && nameOf(xs[k]) == name {
      assert k < n ==> nameOf(xs[..n][k]) == name;
    }
  }

  lemma LastSnoc<T(!new)>(xs: seq<T>, item: T, nameOf: T -> string)
    requires xs != [] && LastNamed(xs[..|xs| - 1], item, nameOf) && nameOf(item) != nameOf(xs[|xs| - 1])
    ensures LastNamed(xs, item, nameOf)
  {
    var ys := xs[..|xs| - 1];
    var k :| 0 <= k < |ys| && ys[k] == item && forall j | k < j < |ys| :: nameOf(ys[j]) != nameOf(item);
    assert xs[k] == item;
    forall j | k < j < |xs| ensures nameOf(xs[j]) != nameOf(item) {
      assert j < |ys| ==> ys[j] == xs[j];
    }
  }

  /** A merge holds exactly the last incoming item of each name, and the old items that it leaves alone. */
  lemma MergeSurvivors<T(!new)>(existing: seq<T>, incoming: seq<T>, item: T, nameOf: T -> string)
    ensures item in MergeByName(existing, incoming, nameOf) <==>
            LastNamed(incoming, item, nameOf) || LeftAlone(existing, incoming, item, nameOf)
  {
    var m := MergeByName(existing, incoming, nameOf);
    MergePositions(existing, incoming, nameOf);
    MergeHolds(existing, incoming, nameOf);
    if item in m {
      var p :| 0 <= p < |m| && m[p] == item;
      if p < |existing| && !(FirstOf(existing, p, nameOf) && HasName(incoming, nameOf(existing[p]), nameOf)) {
        assert existing[p] == item;
      }
    }
    if LeftAlone(existing, incoming, item, nameOf) {
      var i: nat :| i < |existing| && existing[i] == item &&
                    !(FirstOf(existing, i, nameOf) && HasName(incoming, nameOf(item), nameOf));
      assert m[i] == item;
    }
  }

  /**
    Of several mapped clauses or groups with one name the import keeps the last: the zones of the result are
    exactly the last ones of each name that the file states, and the old ones whose name it does not state.
   */
  lemma SurvivingZones(ip: Netip, current: Settings, custom: string, blocks: seq<ParsedBlock>, f: ForwardZone,
                       l: LocalZone)
    ensures var r, w := ImportOf(ip, current, custom, blocks).settings, Swept(ip, current, blocks).zones;
            (f in r.forwardZones <==>
             LastNamed(w, f, ForwardNameOf) || LeftAlone(current.forwardZones, w, f, ForwardNameOf)) &&
            (l in r.localZones <==>
             LastNamed(LocalZonesIn(ip, blocks), l, LocalNameOf) ||
             LeftAlone(current.localZones, LocalZonesIn(ip, blocks), l, LocalNameOf))
  {
    hide Swept, LocalZonesIn, MergeByName, LastNamed, LeftAlone, Items, MergeDomains, WithPolicy, NetworkModeOf,
      ProfileOf, ExtractorFindings;
    MergeSurvivors(current.forwardZones, Swept(ip, current, blocks).zones, f, ForwardNameOf);
    MergeSurvivors(current.localZones, LocalZonesIn(ip, blocks), l, LocalNameOf);
  }

  /** The zones that are merged carry the names of the mapped clauses, in order. */
  lemma SweptNames(ip: Netip, current: Settings, blocks: seq<ParsedBlock>)
    ensures var w, z := Swept(ip, current, blocks).zones, MappedZones(ip, blocks);
            |w| == |z| && forall i | 0 <= i < |w| :: w[i].name == z[i].name && w[i].servers == z[i].servers
  {
    hide MappedZones, AllConsumed, Mapped, ZoneNames;
    SweepKeepsNames(Sweep(current, MappedZones(ip, blocks), [], [], []), ZoneNames(MappedZones(ip, blocks)),
                    AllConsumed(ip, blocks), Mapped(ip, blocks), blocks, |blocks|);
  }

  ghost predicate SameNames(w: seq<ForwardZone>, z: seq<ForwardZone>) {
    |w| == |z| && forall i | 0 <= i < |w| :: w[i].name == z[i].name && w[i].servers == z[i].servers
  }

  lemma {:induction false} SweepKeepsNames(st: Sweep, names: set<string>, consumed: iset<Place>, mapped: iset<nat>,
                                          blocks: seq<ParsedBlock>, n: nat)
    requires n <= |blocks|
    ensures SameNames(SweepBlocks(st, names, consumed, mapped, blocks, n).zones, st.zones)
  {
    hide SweepDirectives, ClauseFinding, ClauseLines;
    if n > 0 {
      SweepKeepsNames(st, names, consumed, mapped, blocks, n - 1);
      var before := SweepBlocks(st, names, consumed, mapped, blocks, n - 1);
      DirectivesKeepNames(before, names, consumed, n - 1, blocks[n - 1].directives, |blocks[n - 1].directives|);
    }
  }

  lemma {:induction false} DirectivesKeepNames(st: Sweep, names: set<string>, consumed: iset<Place>, b: nat,
                                              ds: seq<ParsedDirective>, n: nat)
    requires n <= |ds|
    ensures SameNames(SweepDirectives(st, names, consumed, b, ds, n).zones, st.zones)
  {
    hide ApplyServer, DirectiveFinding, DirectiveExpert;
    if n > 0 {
      DirectivesKeepNames(st, names, consumed, b, ds, n - 1);
      var before := SweepDirectives(st, names, consumed, b, ds, n - 1);
      assert SameNames(Apply(before, names, KVOf(ds[n - 1])).zones, before.zones);
    }
  }

  /** Merging the same zones twice is merging them once, whatever duplicates either side has. */
  lemma MergeIdempotent<T(!new)>(existing: seq<T>, incoming: seq<T>, nameOf: T -> string)
    ensures var m := MergeByName(existing, incoming, nameOf); MergeByName(m, incoming, nameOf) == m
  {
    var m := MergeByName(existing, incoming, nameOf);
    MergeHolds(existing, incoming, nameOf);
    forall k | 0 <= k < |incoming| ensures HasName(m, nameOf(incoming[k]), nameOf) {
      assert HasName(incoming, nameOf(incoming[k]), nameOf);
      var item := LastOfName(incoming, nameOf(incoming[k]), nameOf);
      var p: nat :| FirstOf(m, p, nameOf) && m[p] == item;
    }
    MergeSameNames(m, incoming, nameOf);
    MergeHolds(m, incoming, nameOf);
    var again := MergeByName(m, incoming, nameOf);
    forall k | 0 <= k < |m| ensures again[k] == m[k] {
      if FirstOf(m, k, nameOf) && HasName(incoming, nameOf(m[k]), nameOf) {
        var item := LastOfName(incoming, nameOf(m[k]), nameOf);
        var p: nat :| FirstOf(m, p, nameOf) && m[p] == item;
        var q: nat :| FirstOf(again, q, nameOf) && again[q] == item;
      }
    }
  }

  lemma {:induction false} MergeDomainsContains(existing: seq<string>, incoming: seq<string>, zones: seq<ForwardZone>)
    ensures forall d | d in incoming :: d in MergeDomains(existing, incoming, zones) || ClaimedByZone(d, zones)
  {
    hide ClaimedByZone;
    if incoming != [] {
      var n := |incoming| - 1;
      MergeDomainsContains(existing, incoming[..n], zones);
      assert incoming == incoming[..n] + [incoming[n]];
    }
  }

  lemma {:induction false} MergeDomainsAbsorbs(merged: seq<string>, incoming: seq<string>, zones: seq<ForwardZone>)
    requires forall d | d in incoming :: d in merged || ClaimedByZone(d, zones)
    ensures MergeDomains(merged, incoming, zones) == merged
  {
    hide ClaimedByZone;
    if incoming != [] {
      var n := |incoming| - 1;
      assert incoming[n] in incoming;
      MergeDomainsAbsorbs(merged, incoming[..n], zones);
    }
  }

  lemma PoliciesIdempotent(zones: seq<ReverseZonePolicy>, items: seq<Item>)
    ensures Map(Map(zones, WithPolicy(items)), WithPolicy(items)) == Map(zones, WithPolicy(items))
  {
    hide PolicyOf;
  }

  lemma CombineFields(ip: Netip, current: Settings, blocks: seq<ParsedBlock>, swept: Sweep, f: Field)
    ensures SameField(Combine(ip, current, blocks, swept), swept.candidate, f)
  {
    hide MergeByName, MergeDomains, LocalZonesIn, Items, PolicyOf, WithPolicy, NetworkModeOf, ProfileOf;
  }

  /** The candidate after a second pass, when the first pass already produced `s`. */
  lemma CombineStable(ip: Netip, current: Settings, s: Settings, blocks: seq<ParsedBlock>, first: Sweep, second: Sweep)
    requires Twin(current, s, first, second)
    requires s == Combine(ip, current, blocks, first)
    ensures Combine(ip, s, blocks, second) == s
  {
    var again := Combine(ip, s, blocks, second);
    forall f: Field ensures SameField(again, s, f) {
      hide Combine, Switch, Number, IsSwitch;
      CombineFields(ip, s, blocks, second, f);
      CombineFields(ip, current, blocks, first, f);
      assert (SameField(first.candidate, current, f) && SameField(second.candidate, s, f)) ||
             SameField(first.candidate, second.candidate, f);
    }
    ListsStable(ip, current, s, blocks, first, second);
    FieldsDetermine(again, s);
  }

  lemma ListsStable(ip: Netip, current: Settings, s: Settings, blocks: seq<ParsedBlock>, first: Sweep, second: Sweep)
    requires first.zones == second.zones && first.privateDomains == second.privateDomains
    requires s == Combine(ip, current, blocks, first)
    ensures SameLists(Combine(ip, s, blocks, second), s)
  {
    hide MergeByName, MergeDomains, LocalZonesIn, Items, PolicyOf, WithPolicy, NetworkModeOf, ProfileOf;
    MergeIdempotent(current.forwardZones, first.zones, ForwardNameOf);
    MergeIdempotent(current.localZones, LocalZonesIn(ip, blocks), LocalNameOf);
    MergeDomainsContains(current.privateDomains, first.privateDomains, s.forwardZones);
    MergeDomainsAbsorbs(s.privateDomains, first.privateDomains, s.forwardZones);
    PoliciesIdempotent(current.reverseZones, Items(blocks));
  }

  /** Importing a file into the settings it already produced yields the same settings. */
  lemma ImportIdempotent(ip: Netip, current: Settings, custom: string, custom': string, content: string)
    requires Imported(ip, current, custom, content).Some?
    ensures var s := Imported(ip, current, custom, content).value.settings;
            Imported(ip, s, custom', content).Some? && Imported(ip, s, custom', content).value.settings == s
  {
    hide Combine, SweepBlocks, MappedZones, ZoneNames, AllConsumed, Mapped, Agrees, Blocks, Adopt, ByteLength;
    var blocks := Blocks(content);
    var first := Swept(ip, current, blocks);
    var s := Combine(ip, current, blocks, first);
    var second := Swept(ip, s, blocks);
    var zones := MappedZones(ip, blocks);
    AgreesAtStart(current, s);
    SweepBlocksTwin(current, s, Sweep(current, zones, [], [], []), Sweep(s, zones, [], [], []), ZoneNames(zones),
                    AllConsumed(ip, blocks), Mapped(ip, blocks), blocks, |blocks|);
    CombineStable(ip, current, s, blocks, first, second);
  }

  lemma AgreesAtStart(x: Settings, y: Settings)
    ensures Agrees(x, y, x, y)
  {
  }
}
