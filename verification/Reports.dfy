/**
  The report of an import is complete (import.go:115-246): every directive of a server block has a finding of its
  own, or lies in a group that has one.
 */
module UnboundReports {
  import opened Text
  import opened Seqs
  import opened UnboundSettings
  import opened UnboundParse
  import opened UnboundExtract
  import opened UnboundGroups
  import opened UnboundImport
  import opened UnboundImportLaws

  /** A guided finding for the directive, or for the local zone whose group it belongs to. */
  ghost predicate GuidedFor(blocks: seq<ParsedBlock>, p: Place, f: Finding)
    requires ServerPlace(blocks, p)
  {
    f.disposition.Guided? && f.section == "server" &&
    ((f.line == LineAt(blocks, p) && f.directive == blocks[p.block].directives[p.index].key) ||
     (f.directive == "local-zone" &&
      exists start: nat | start <= p.index ::
        p.index < StopAfter(KVs(blocks[p.block].directives), start) && f.line == LineAt(blocks, Place(p.block, start))))
  }

  lemma {:induction false} GroupIsReported(ip: Netip, ds: seq<ParsedDirective>, n: nat, start: nat)
    requires start < n <= |ds| && GroupAt(ip, KVs(ds), start).Some?
    ensures GuidedAt(ds[start].line, "local-zone", GroupAt(ip, KVs(ds), start).value.name) in GroupFindings(ip, ds, n)
  {
    hide GroupAt;
    if start < n - 1 {
      GroupIsReported(ip, ds, n - 1, start);
    }
  }

  lemma LocalIsReported(ip: Netip, blocks: seq<ParsedBlock>, p: Place) returns (f: Finding)
    requires LocalConsumed(ip, blocks, p)
    ensures f in Flat(blocks, LocalFinding(ip)) && GuidedFor(blocks, p, f)
  {
    hide ZoneOfGroup, Flat;
    var ds := blocks[p.block].directives;
    var kvs := KVs(ds);
    var start :| 0 <= start <= p.index < |kvs| && GroupAt(ip, kvs, start).Some? && p.index < StopAfter(kvs, start);
    f := GuidedAt(ds[start].line, "local-zone", GroupAt(ip, kvs, start).value.name);
    GroupIsReported(ip, ds, |ds|, start);
    FlatMember(blocks, LocalFinding(ip), p.block);
    assert f in LocalFinding(ip)(blocks[p.block]);
    assert f.line == LineAt(blocks, Place(p.block, start));
  }

  /** The only item selected is the one at that place. */
  lemma OnlyAt(blocks: seq<ParsedBlock>, p: Place, wanted: KV -> bool) returns (it: Item)
    requires ServerPlace(blocks, p) && wanted(KVOf(blocks[p.block].directives[p.index]))
    requires |Select(Items(blocks), wanted)| == 1
    ensures Select(Items(blocks), wanted) == [it] && it.place == p
  {
    hide Select, ServerItems;
    it := Item(p, KVOf(blocks[p.block].directives[p.index]));
    ItemsAreServerPlaces(blocks, |blocks|, it);
    SelectMember(Items(blocks), wanted, it);
  }

  lemma ReverseIsReported(blocks: seq<ParsedBlock>, p: Place) returns (f: Finding)
    requires ReverseConsumed(blocks, p)
    ensures f in Flat(NETWORKS, PolicyFindings(blocks)) && GuidedFor(blocks, p, f)
  {
    hide Flat, Select, Items, ReverseNames, NetworkOf, ParseLocalZoneValue, StopAfter;
    var kv := KVOf(blocks[p.block].directives[p.index]);
    var network :| network in NETWORKS && IsReverseLine(kv, network) && PolicyOf(Items(blocks), network).Some?;
    var name := ParseLocalZoneValue(kv.value).value.name;
    NetworkNames(name, network);
    var names := ReverseNames(network);
    var k: nat :| k < |names| && names[k] == name;
    var it := OnlyAt(blocks, p, ZoneNamed(name));
    f := GuidedAt(LineAt(blocks, p), "local-zone", network);
    assert ReverseFinding(blocks, network)(name) == [f];
    FlatMember(names, ReverseFinding(blocks, network), k);
    assert f in [f] && f in PolicyFindings(blocks)(network);
    var n: nat :| n < |NETWORKS| && NETWORKS[n] == network;
    FlatMember(NETWORKS, PolicyFindings(blocks), n);
  }

  lemma KeyIsReported(blocks: seq<ParsedBlock>, p: Place, lower: bool) returns (f: Finding)
    requires ServerPlace(blocks, p) && |Select(Items(blocks), KeyIs(blocks[p.block].directives[p.index].key))| == 1
    ensures f in KeyFinding(blocks, blocks[p.block].directives[p.index].key, lower) && GuidedFor(blocks, p, f)
  {
    hide Select, Items, StopAfter;
    var key := blocks[p.block].directives[p.index].key;
    var it := OnlyAt(blocks, p, KeyIs(key));
    f := KeyFinding(blocks, key, lower)[0];
  }

  /** Whatever an extractor consumes, it reports. */
  lemma ConsumedIsReported(ip: Netip, blocks: seq<ParsedBlock>, p: Place) returns (f: Finding)
    requires p in AllConsumed(ip, blocks)
    ensures ServerPlace(blocks, p) && f in ExtractorFindings(ip, blocks) && GuidedFor(blocks, p, f)
  {
    hide Flat, Select, Items, GuidedFor, InGroup, PolicyOf, IsReverseLine, LocalFinding, PolicyFindings, ZoneFinding;
    if LocalConsumed(ip, blocks, p) {
      f := LocalIsReported(ip, blocks, p);
    } else if ReverseConsumed(blocks, p) {
      f := ReverseIsReported(blocks, p);
    } else if ModeConsumed(blocks, p) {
      f := KeyIsReported(blocks, p, true);
      assert f in ModeFindings(blocks);
    } else {
      f := KeyIsReported(blocks, p, false);
      assert f in ProfileFindings(blocks);
    }
  }

  /**
    No directive of a server block is dropped without a word, for any file and any settings: it has its own finding,
    or an extractor took it over and reported it as guided.
   */
  lemma EveryDirectiveReported(ip: Netip, current: Settings, custom: string, blocks: seq<ParsedBlock>, p: Place)
    requires ServerPlace(blocks, p)
    ensures var r := ImportOf(ip, current, custom, blocks);
            DirectiveFinding(ZoneNames(MappedZones(ip, blocks)), blocks[p.block].directives[p.index]) in r.findings ||
            exists f | f in r.findings :: GuidedFor(blocks, p, f)
  {
    hide AllConsumed, ZoneNames, MappedZones, ImportOf, GuidedFor, DirectiveFinding, AllFindings, ExtractorFindings;
    if p in AllConsumed(ip, blocks) {
      var f := ConsumedIsReported(ip, blocks, p);
      ReportIsExact(ip, current, custom, blocks);
      assert f in ImportOf(ip, current, custom, blocks).findings;
    } else {
      NoServerDirectiveDropped(ip, current, custom, blocks, p);
    }
  }

  /** Every clause that is taken over is reported under its header line, with the name of the zone it gives. */
  lemma MappedIsReported(ip: Netip, current: Settings, custom: string, blocks: seq<ParsedBlock>, b: nat)
    requires b < |blocks| && MappedZone(ip, blocks[b]).Some?
    ensures Finding("forward-zone", blocks[b].lineStart, "forward-zone", MappedZone(ip, blocks[b]).value.name, Guided)
              in ImportOf(ip, current, custom, blocks).findings
  {
    hide AllConsumed, ZoneNames, MappedZones, ImportOf, AllFindings, AllExpert, MappedZone, Flat, LocalFinding,
      PolicyFindings, ModeFindings, ProfileFindings, Adopt;
    FlatMember(blocks, ZoneFinding(ip), b);
    var f :=
      Finding("forward-zone", blocks[b].lineStart, "forward-zone", MappedZone(ip, blocks[b]).value.name, Guided);
    assert ZoneFinding(ip)(blocks[b]) == [f] && f in [f];
    assert f in ExtractorFindings(ip, blocks);
    ReportIsExact(ip, current, custom, blocks);
  }
}
