/**
  The three extractors that recognise a fixed combination of server directives (import.go:601-781):
  RFC 1918 reverse policies, the network mode and the resource profile. Each is all or nothing.
 */
module UnboundGroups {
  import opened Text
  import opened Seqs
  import opened UnboundSettings
  import opened UnboundParse
  import opened UnboundExtract

  // ---------- the directives of all server blocks, in file order ----------

  function BlockItems(block: ParsedBlock, b: nat, n: nat): (items: seq<Item>)
    requires n <= |block.directives|
    ensures |items| == n
  {
    seq(n, i requires 0 <= i < n => Item(Place(b, i), KVOf(block.directives[i])))
  }

  function ServerItems(blocks: seq<ParsedBlock>, b: nat): seq<Item>
    requires b <= |blocks|
  {
    if b == 0 then []
    else
      ServerItems(blocks, b - 1) +
      (if blocks[b - 1].section == "server" then BlockItems(blocks[b - 1], b - 1, |blocks[b - 1].directives|) else [])
  }

  function Items(blocks: seq<ParsedBlock>): seq<Item> { ServerItems(blocks, |blocks|) }

  /** The items up to, and not including, directive `i` of block `b`. */
  function ItemsBefore(blocks: seq<ParsedBlock>, b: nat, i: nat): seq<Item>
    requires b < |blocks| && i <= |blocks[b].directives|
  {
    ServerItems(blocks, b) + BlockItems(blocks[b], b, i)
  }

  lemma ItemsBeforeStep(blocks: seq<ParsedBlock>, b: nat, i: nat)
    requires b < |blocks| && i < |blocks[b].directives|
    ensures ItemsBefore(blocks, b, i + 1) ==
            ItemsBefore(blocks, b, i) + [Item(Place(b, i), KVOf(blocks[b].directives[i]))]
  {
    assert BlockItems(blocks[b], b, i + 1) == BlockItems(blocks[b], b, i) +
      [Item(Place(b, i), KVOf(blocks[b].directives[i]))];
  }

  lemma {:induction false} ItemsAreServerPlaces(blocks: seq<ParsedBlock>, b: nat, it: Item)
    requires b <= |blocks|
    ensures it in ServerItems(blocks, b) <==>
            it.place.block < b && ServerPlace(blocks, it.place) &&
            it.kv == KVOf(blocks[it.place.block].directives[it.place.index])
  {
    if b > 0 {
      ItemsAreServerPlaces(blocks, b - 1, it);
      var items := BlockItems(blocks[b - 1], b - 1, |blocks[b - 1].directives|);
      if it.place.block == b - 1 && it.place.index < |items| {
        assert items[it.place.index] in items;
      }
    }
  }

  /** The line number of a directive. */
  function LineAt(blocks: seq<ParsedBlock>, p: Place): nat {
    if p.block < |blocks| && p.index < |blocks[p.block].directives| then blocks[p.block].directives[p.index].line else 0
  }

  // ---------- selecting items ----------

  function Select(items: seq<Item>, p: KV -> bool): seq<Item> {
    if items == [] then []
    else
      var last := items[|items| - 1];
      Select(items[..|items| - 1], p) + (if p(last.kv) then [last] else [])
  }

  lemma SelectSnoc(items: seq<Item>, it: Item, p: KV -> bool)
    ensures Select(items + [it], p) == Select(items, p) + (if p(it.kv) then [it] else [])
  {
    assert (items + [it])[..|items|] == items;
  }

  lemma {:induction false} SelectMember(items: seq<Item>, p: KV -> bool, it: Item)
    ensures it in Select(items, p) <==> it in items && p(it.kv)
  {
    if items != [] {
      SelectMember(items[..|items| - 1], p, it);
      assert items == items[..|items| - 1] + [items[|items| - 1]];
    }
  }

  lemma {:induction false} SelectNone(items: seq<Item>, p: KV -> bool)
    requires forall i | 0 <= i < |items| :: !p(items[i].kv)
    ensures Select(items, p) == []
  {
    if items != [] {
      SelectNone(items[..|items| - 1], p);
    }
  }

  // ---------- RFC 1918 reverse policies ----------

  /** A `local-zone` line for the zone of that name. */
  function ZoneNamed(name: string): KV -> bool {
    (kv: KV) => kv.key == "local-zone" && ParseLocalZoneValue(kv.value).Some? &&
                ParseLocalZoneValue(kv.value).value.name == name
  }

  function ZoneTypeOf(kv: KV): string {
    match ParseLocalZoneValue(kv.value) case Some(v) => v.zoneType case None => ""
  }

  /** Each reverse zone of the network appears exactly once, always with that type. */
  ghost predicate UniformNetwork(items: seq<Item>, network: string, zoneType: string) {
    forall k | 0 <= k < |ReverseNames(network)| ::
      |Select(items, ZoneNamed(ReverseNames(network)[k]))| == 1 &&
      ZoneTypeOf(Select(items, ZoneNamed(ReverseNames(network)[k]))[0].kv) == zoneType
  }

  ghost function PolicyOf(items: seq<Item>, network: string): Option<string> {
    if network !in NETWORKS then None
    else if UniformNetwork(items, network, "static") then Some(NXDOMAIN)
    else if UniformNetwork(items, network, "transparent") then Some(TRANSPARENT)
    else None
  }

  /** The line states the type of a reverse zone of the network. */
  predicate IsReverseLine(kv: KV, network: string) {
    kv.key == "local-zone" && ParseLocalZoneValue(kv.value).Some? &&
    NetworkOf(ParseLocalZoneValue(kv.value).value.name) == Some(network)
  }

  ghost predicate ReverseConsumed(blocks: seq<ParsedBlock>, p: Place) {
    ServerPlace(blocks, p) &&
    exists n | n in NETWORKS ::
      IsReverseLine(KVOf(blocks[p.block].directives[p.index]), n) && PolicyOf(Items(blocks), n).Some?
  }

  /** One finding for every reverse zone of the network, at its line. */
  function ReverseFinding(blocks: seq<ParsedBlock>, network: string): string -> seq<Finding> {
    (name: string) =>
      var found := Select(Items(blocks), ZoneNamed(name));
      if found == [] then [] else [GuidedAt(LineAt(blocks, found[0].place), "local-zone", network)]
  }

  ghost function PolicyFindings(blocks: seq<ParsedBlock>): string -> seq<Finding> {
    (network: string) =>
      if PolicyOf(Items(blocks), network).None? then []
      else Flat(ReverseNames(network), ReverseFinding(blocks, network))
  }

  type Hits = map<string, map<string, seq<Item>>>

  function HitsFor(hits: Hits, network: string, name: string): seq<Item> {
    if network in hits && name in hits[network] then hits[network][name] else []
  }

  /** The two-level hit map holds exactly the selected items, and no empty entry. */
  ghost predicate HitsAre(hits: Hits, items: seq<Item>) {
    (forall name, network | NetworkOf(name) == Some(network) ::
       HitsFor(hits, network, name) == Select(items, ZoneNamed(name))) &&
    (forall network, name | network in hits && name in hits[network] ::
       NetworkOf(name) == Some(network) && hits[network][name] != [])
  }

  method AddHit(hits: Hits, it: Item, ghost items: seq<Item>) returns (hits': Hits)
    requires HitsAre(hits, items)
    ensures HitsAre(hits', items + [it])
  {
    hide ParseLocalZoneValue, NetworkOf, Select;
    hits' := hits;
    var parsed := ParseLocalZoneValue(it.kv.value);
    if it.kv.key != "local-zone" || parsed.None? || NetworkOf(parsed.value.name).None? {
      forall name, network | NetworkOf(name) == Some(network)
        ensures HitsFor(hits, network, name) == Select(items + [it], ZoneNamed(name))
      {
        SelectSnoc(items, it, ZoneNamed(name));
        assert !ZoneNamed(name)(it.kv);
      }
      assert HitsAre(hits', items + [it]);
      return;
    }
    var name, network := parsed.value.name, NetworkOf(parsed.value.name).value;
    var byName := if network in hits then hits[network] else map[];
    var known := if name in byName then byName[name] else [];
    hits' := hits[network := byName[name := known + [it]]];
    forall other, n | NetworkOf(other) == Some(n)
      ensures HitsFor(hits', n, other) == Select(items + [it], ZoneNamed(other))
    {
      SelectSnoc(items, it, ZoneNamed(other));
      assert HitsFor(hits, n, other) == Select(items, ZoneNamed(other));
      if other == name {
        assert HitsFor(hits', n, other) == known + [it];
      } else {
        assert HitsFor(hits', n, other) == HitsFor(hits, n, other);
        assert !ZoneNamed(other)(it.kv);
      }
    }
    forall n, other | n in hits' && other in hits'[n]
      ensures NetworkOf(other) == Some(n) && hits'[n][other] != []
    {
      if n == network {
        assert hits'[n] == byName[name := known + [it]];
        if other == name {
          assert hits'[n][other][|known|] == it;
        }
      } else {
        assert hits'[n] == hits[n];
      }
    }
  }

  method CollectHits(blocks: seq<ParsedBlock>) returns (hits: Hits)
    ensures HitsAre(hits, Items(blocks))
  {
    hide HitsAre;
    hits := map[];
    NoHits();
    for b := 0 to |blocks|
      invariant HitsAre(hits, ServerItems(blocks, b))
    {
      if blocks[b].section == "server" {
        assert ItemsBefore(blocks, b, 0) == ServerItems(blocks, b);
        for i := 0 to |blocks[b].directives|
          invariant HitsAre(hits, ItemsBefore(blocks, b, i))
        {
          ItemsBeforeStep(blocks, b, i);
          hits := AddHit(hits, Item(Place(b, i), KVOf(blocks[b].directives[i])), ItemsBefore(blocks, b, i));
        }
        assert ItemsBefore(blocks, b, |blocks[b].directives|) == ServerItems(blocks, b + 1);
      } else {
        assert ServerItems(blocks, b + 1) == ServerItems(blocks, b);
      }
    }
  }

  lemma NoHits()
    ensures HitsAre(map[], [])
  {
  }

  /** When every name of the network was seen, the counts agree: the source's first test is redundant. */
  lemma AllNamesCounted(byName: map<string, seq<Item>>, network: string)
    requires network in NETWORKS && forall name | name in byName :: NetworkOf(name) == Some(network)
    requires forall k | 0 <= k < |ReverseNames(network)| :: ReverseNames(network)[k] in byName
    ensures |byName| == |ReverseNames(network)|
  {
    var names := ReverseNames(network);
    forall i, j | 0 <= i < j < |names| ensures names[i] != names[j] { ReverseNamesApart(network, network, i, j); }
    DistinctCount(names);
    var all := set k | 0 <= k < |names| :: names[k];
    forall name | name in byName ensures name in all { NetworkNames(name, network); }
    assert byName.Keys == all;
  }

  lemma NetworkNames(name: string, network: string)
    requires NetworkOf(name) == Some(network)
    ensures network in NETWORKS
    ensures exists k | 0 <= k < |ReverseNames(network)| :: ReverseNames(network)[k] == name
  {
    hide ReverseNames;
    assert NETWORKS[0] == NETWORK_10 && NETWORKS[1] == NETWORK_172 && NETWORKS[2] == NETWORK_192;
    assert name in ReverseNames(network);
  }

  lemma {:induction false} DistinctCount(xs: seq<string>)
    requires forall i, j | 0 <= i < j < |xs| :: xs[i] != xs[j]
    ensures |set k | 0 <= k < |xs| :: xs[k]| == |xs|
  {
    var all := set k | 0 <= k < |xs| :: xs[k];
    if xs == [] {
      assert all == {};
    } else {
      var n := |xs| - 1;
      DistinctCount(xs[..n]);
      var rest := set k | 0 <= k < n :: xs[..n][k];
      assert all == rest + {xs[n]};
      assert xs[n] !in rest;
    }
  }

  method MatchNetwork(hits: Hits, network: string, ghost items: seq<Item>)
    returns (mode: Option<string>, matched: seq<Item>)
    requires HitsAre(hits, items) && network in NETWORKS
    ensures mode == PolicyOf(items, network)
    ensures mode.Some? ==> forall it :: it in matched <==> it in items && IsReverseLine(it.kv, network)
    ensures mode.Some? ==> |matched| == |ReverseNames(network)| && forall j | 0 <= j < |matched| ::
                             Select(items, ZoneNamed(ReverseNames(network)[j])) == [matched[j]]
  {
    hide HitsAre, NetworkOf, ReverseNames, ParseLocalZoneValue, Select, UniformNetwork, PolicyOf;
    var byName := if network in hits then hits[network] else map[];
    var expected := ReverseNames(network);
    mode, matched := None, [];
    HitsOfNetwork(hits, items, network);
    NetworksHaveNames(network);
    if |byName| != |expected| {
      if forall k | 0 <= k < |expected| :: expected[k] in byName { AllNamesCounted(byName, network); }
      var k: nat :| k < |expected| && expected[k] !in byName;
      NotOnce(items, network, k);
      return;
    }
    var zoneType := "";
    for k := 0 to |expected|
      invariant |matched| == k && (zoneType == "" <==> k == 0)
      invariant Matched(items, expected, matched, zoneType)
    {
      var occurrences := if expected[k] in byName then byName[expected[k]] else [];
      assert occurrences == Select(items, ZoneNamed(expected[k]));
      if |occurrences| != 1 {
        NotOnce(items, network, k);
        return;
      }
      SelectMember(items, ZoneNamed(expected[k]), occurrences[0]);
      assert occurrences[0] in occurrences;
      TypeNotEmpty(occurrences[0].kv);
      if zoneType == "" {
        zoneType := ZoneTypeOf(occurrences[0].kv);
      } else if ZoneTypeOf(occurrences[0].kv) != zoneType {
        NotUniform(items, network, k);
        return;
      }
      matched := matched + [occurrences[0]];
    }
    MatchedPolicy(items, network, matched, zoneType);
    if zoneType == "static" {
      mode := Some(NXDOMAIN);
    } else if zoneType == "transparent" {
      mode := Some(TRANSPARENT);
    }
    forall it ensures it in matched <==> it in items && IsReverseLine(it.kv, network) {
      MatchedLines(items, network, matched, it);
    }
  }

  /** The names looked at so far occur once each, always with that type. */
  ghost predicate Matched(items: seq<Item>, names: seq<string>, matched: seq<Item>, zoneType: string) {
    |matched| <= |names| &&
    forall j | 0 <= j < |matched| ::
      Select(items, ZoneNamed(names[j])) == [matched[j]] && ZoneTypeOf(matched[j].kv) == zoneType
  }

  lemma NotOnce(items: seq<Item>, network: string, k: nat)
    requires k < |ReverseNames(network)| && |Select(items, ZoneNamed(ReverseNames(network)[k]))| != 1
    ensures PolicyOf(items, network).None?
  {
    hide Select, ReverseNames;
  }

  lemma NotUniform(items: seq<Item>, network: string, k: nat)
    requires 0 < k < |ReverseNames(network)|
    requires |Select(items, ZoneNamed(ReverseNames(network)[0]))| == 1
    requires |Select(items, ZoneNamed(ReverseNames(network)[k]))| == 1
    requires ZoneTypeOf(Select(items, ZoneNamed(ReverseNames(network)[0]))[0].kv) !=
             ZoneTypeOf(Select(items, ZoneNamed(ReverseNames(network)[k]))[0].kv)
    ensures PolicyOf(items, network).None?
  {
    hide Select, ReverseNames, ZoneTypeOf;
  }

  lemma MatchedPolicy(items: seq<Item>, network: string, matched: seq<Item>, zoneType: string)
    requires network in NETWORKS && 0 < |matched| == |ReverseNames(network)|
    requires Matched(items, ReverseNames(network), matched, zoneType)
    ensures PolicyOf(items, network) ==
            if zoneType == "static" then Some(NXDOMAIN)
            else if zoneType == "transparent" then Some(TRANSPARENT) else None
  {
    hide Select, ReverseNames, ZoneTypeOf;
    assert Select(items, ZoneNamed(ReverseNames(network)[0])) == [matched[0]];
    assert UniformNetwork(items, network, zoneType);
    assert "static" != "transparent" by { ReverseTypesDiffer(); }
  }

  lemma ReverseTypesDiffer()
    ensures "static" != "transparent"
  {
    assert |"static"| == 6 && |"transparent"| == 11;
  }

  lemma TypeNotEmpty(kv: KV)
    requires ParseLocalZoneValue(kv.value).Some?
    ensures ZoneTypeOf(kv) != ""
  {
  }

  lemma NetworksHaveNames(network: string)
    requires network in NETWORKS
    ensures |ReverseNames(network)| > 0
  {
    assert NETWORKS[0] == NETWORK_10 && NETWORKS[1] == NETWORK_172 && NETWORKS[2] == NETWORK_192;
  }

  lemma HitsOfNetwork(hits: Hits, items: seq<Item>, network: string)
    requires HitsAre(hits, items) && network in NETWORKS
    ensures forall k | 0 <= k < |ReverseNames(network)| ::
              HitsFor(hits, network, ReverseNames(network)[k]) == Select(items, ZoneNamed(ReverseNames(network)[k]))
    ensures network in hits ==> forall name | name in hits[network] ::
              NetworkOf(name) == Some(network) && hits[network][name] != []
  {
    forall k | 0 <= k < |ReverseNames(network)|
      ensures HitsFor(hits, network, ReverseNames(network)[k]) == Select(items, ZoneNamed(ReverseNames(network)[k]))
    {
      NetworkOfName(network, k);
    }
  }

  lemma MatchedLines(items: seq<Item>, network: string, matched: seq<Item>, it: Item)
    requires network in NETWORKS && |matched| == |ReverseNames(network)|
    requires forall j | 0 <= j < |matched| :: Select(items, ZoneNamed(ReverseNames(network)[j])) == [matched[j]]
    ensures it in matched <==> it in items && IsReverseLine(it.kv, network)
  {
    hide ParseLocalZoneValue, NetworkOf, ReverseNames;
    var names := ReverseNames(network);
    if it in matched {
      var j :| 0 <= j < |matched| && matched[j] == it;
      SelectMember(items, ZoneNamed(names[j]), it);
      assert it in Select(items, ZoneNamed(names[j]));
      NetworkOfName(network, j);
    }
    if it in items && IsReverseLine(it.kv, network) {
      NetworkNames(ParseLocalZoneValue(it.kv.value).value.name, network);
      var j :| 0 <= j < |names| && names[j] == ParseLocalZoneValue(it.kv.value).value.name;
      SelectMember(items, ZoneNamed(names[j]), it);
      assert it in [matched[j]];
    }
  }

  method ExtractReverseZonePolicies(blocks: seq<ParsedBlock>)
    returns (policies: map<string, string>, consumed: set<Place>, findings: seq<Finding>)
    ensures forall n :: n in policies <==> n in NETWORKS && PolicyOf(Items(blocks), n).Some?
    ensures forall n | n in policies :: Some(policies[n]) == PolicyOf(Items(blocks), n)
    ensures forall p :: p in consumed <==> ReverseConsumed(blocks, p)
    ensures findings == Flat(NETWORKS, PolicyFindings(blocks))
  {
    hide HitsAre, PolicyOf, IsReverseLine, Items, PolicyFindings;
    var hits := CollectHits(blocks);
    ghost var items := Items(blocks);
    policies, consumed, findings := map[], {}, [];
    FlatNothing(PolicyFindings(blocks));
    for k := 0 to |NETWORKS|
      invariant forall n :: n in policies <==> (exists j | 0 <= j < k :: NETWORKS[j] == n) && PolicyOf(items, n).Some?
      invariant forall n | n in policies :: Some(policies[n]) == PolicyOf(items, n)
      invariant forall p :: p in consumed <==>
                  exists it, n | n in policies && it in items && IsReverseLine(it.kv, n) :: it.place == p
      invariant findings == Flat(NETWORKS[..k], PolicyFindings(blocks))
    {
      var mode, matched := MatchNetwork(hits, NETWORKS[k], items);
      FlatSnoc(NETWORKS, k, PolicyFindings(blocks));
      PolicyFindingsAre(blocks, NETWORKS[k], mode, matched);
      if mode.Some? {
        ghost var before := consumed;
        ghost var known := policies;
        policies := policies[NETWORKS[k] := mode.value];
        consumed := consumed + set it | it in matched :: it.place;
        ConsumedGrows(items, known, policies, NETWORKS[k], matched, before, consumed);
        findings := findings + Map(matched, MatchedFinding(blocks, NETWORKS[k]));
      }
    }
    assert NETWORKS[..|NETWORKS|] == NETWORKS;
    forall p ensures p in consumed <==> ReverseConsumed(blocks, p) {
      ReverseConsumedItems(blocks, policies, p);
    }
  }

  function MatchedFinding(blocks: seq<ParsedBlock>, network: string): Item -> Finding {
    (it: Item) => GuidedAt(LineAt(blocks, it.place), "local-zone", network)
  }

  lemma PolicyFindingsAre(blocks: seq<ParsedBlock>, network: string, mode: Option<string>, matched: seq<Item>)
    requires mode == PolicyOf(Items(blocks), network)
    requires mode.Some? ==> |matched| == |ReverseNames(network)| && forall j | 0 <= j < |matched| ::
                              Select(Items(blocks), ZoneNamed(ReverseNames(network)[j])) == [matched[j]]
    ensures PolicyFindings(blocks)(network) ==
            if mode.None? then [] else Map(matched, MatchedFinding(blocks, network))
  {
    hide PolicyOf, Items, ReverseNames, Select;
    if mode.Some? {
      MatchedFindings(blocks, network, ReverseNames(network), matched);
    }
  }

  lemma {:induction false} MatchedFindings(blocks: seq<ParsedBlock>, network: string, names: seq<string>,
                                           matched: seq<Item>)
    requires |matched| == |names|
    requires forall j | 0 <= j < |matched| :: Select(Items(blocks), ZoneNamed(names[j])) == [matched[j]]
    ensures Flat(names, ReverseFinding(blocks, network)) == Map(matched, MatchedFinding(blocks, network))
  {
    hide Items, Select;
    if names != [] {
      var n := |names| - 1;
      MatchedFindings(blocks, network, names[..n], matched[..n]);
      assert Select(Items(blocks), ZoneNamed(names[n])) == [matched[n]];
    }
  }

  lemma ConsumedGrows(items: seq<Item>, known: map<string, string>, policies: map<string, string>, network: string,
                      matched: seq<Item>, before: set<Place>, after: set<Place>)
    requires network in policies && policies == known[network := policies[network]]
    requires forall it :: it in matched <==> it in items && IsReverseLine(it.kv, network)
    requires forall p :: p in before <==>
               exists it, n | n in known && it in items && IsReverseLine(it.kv, n) :: it.place == p
    requires after == before + set it | it in matched :: it.place
    ensures forall p :: p in after <==>
              exists it, n | n in policies && it in items && IsReverseLine(it.kv, n) :: it.place == p
  {
    hide IsReverseLine;
    forall p ensures p in after <==>
                     exists it, n | n in policies && it in items && IsReverseLine(it.kv, n) :: it.place == p
    {
      if p in before {
        var it, n :| n in known && it in items && IsReverseLine(it.kv, n) && it.place == p;
        assert n in policies;
      }
      if p in after && p !in before {
        var it :| it in matched && it.place == p;
        assert it in items && IsReverseLine(it.kv, network);
      }
      if it, n :| n in policies && it in items && IsReverseLine(it.kv, n) && it.place == p {
        if n == network {
          assert it in matched;
        } else {
          assert n in known;
        }
      }
    }
  }

  lemma ReverseConsumedItems(blocks: seq<ParsedBlock>, policies: map<string, string>, p: Place)
    requires forall n :: n in policies <==> n in NETWORKS && PolicyOf(Items(blocks), n).Some?
    ensures ReverseConsumed(blocks, p) <==>
            exists it, n | n in policies && it in Items(blocks) && IsReverseLine(it.kv, n) :: it.place == p
  {
    hide PolicyOf, IsReverseLine, ServerItems;
    forall it ensures it in Items(blocks) <==>
                      ServerPlace(blocks, it.place) && it.kv == KVOf(blocks[it.place.block].directives[it.place.index])
    {
      ItemsAreServerPlaces(blocks, |blocks|, it);
    }
    if ReverseConsumed(blocks, p) {
      var it := Item(p, KVOf(blocks[p.block].directives[p.index]));
      assert it in Items(blocks);
    }
  }

  // ---------- network mode and resource profile ----------

  function KeyIs(key: string): KV -> bool { (kv: KV) => kv.key == key }

  function ModeOfFlags(ip4: string, ip6: string, prefer6: string): Option<string> {
    if ip4 == "yes" && ip6 == "no" && prefer6 == "no" then Some(IPV4_MODE)
    else if ip4 == "yes" && ip6 == "yes" && prefer6 == "no" then Some(DUAL_MODE)
    else if ip4 == "no" && ip6 == "yes" && prefer6 == "yes" then Some(IPV6_MODE)
    else None
  }

  function NetworkModeOf(items: seq<Item>): Option<string> {
    var ip4, ip6, prefer6 := Select(items, KeyIs("do-ip4")), Select(items, KeyIs("do-ip6")),
      Select(items, KeyIs("prefer-ip6"));
    if |ip4| != 1 || |ip6| != 1 || |prefer6| != 1 then None
    else ModeOfFlags(ToLower(ip4[0].kv.value), ToLower(ip6[0].kv.value), ToLower(prefer6[0].kv.value))
  }

  predicate IsModeKey(key: string) { key == "do-ip4" || key == "do-ip6" || key == "prefer-ip6" }

  ghost predicate ModeConsumed(blocks: seq<ParsedBlock>, p: Place) {
    ServerPlace(blocks, p) && IsModeKey(blocks[p.block].directives[p.index].key) && NetworkModeOf(Items(blocks)).Some?
  }

  /** The findings of keys that occur once each, with these values. */
  function KeyFinding(blocks: seq<ParsedBlock>, key: string, lower: bool): seq<Finding> {
    var found := Select(Items(blocks), KeyIs(key));
    if found == [] then []
    else [GuidedAt(LineAt(blocks, found[0].place), key,
                   if lower then ToLower(found[0].kv.value) else found[0].kv.value)]
  }

  function ModeFindings(blocks: seq<ParsedBlock>): seq<Finding> {
    if NetworkModeOf(Items(blocks)).None? then []
    else
      KeyFinding(blocks, "do-ip4", true) + KeyFinding(blocks, "do-ip6", true) + KeyFinding(blocks, "prefer-ip6", true)
  }

  function ProfileFindings(blocks: seq<ParsedBlock>): seq<Finding> {
    if ProfileOf(Items(blocks)).None? then []
    else KeyFinding(blocks, "rrset-cache-size", false) + KeyFinding(blocks, "msg-cache-size", false)
  }

  const PROFILES: seq<string> := ["small", "medium", "large"]

  function ProfileOfSizes(rrset: string, message: string): Option<string> {
    if ProfileSizes(PROFILES[0]) == Some(CacheSizes(rrset, message)) then Some(PROFILES[0])
    else if ProfileSizes(PROFILES[1]) == Some(CacheSizes(rrset, message)) then Some(PROFILES[1])
    else if ProfileSizes(PROFILES[2]) == Some(CacheSizes(rrset, message)) then Some(PROFILES[2])
    else None
  }

  function ProfileOf(items: seq<Item>): Option<string> {
    var rrset, message := Select(items, KeyIs("rrset-cache-size")), Select(items, KeyIs("msg-cache-size"));
    if |rrset| != 1 || |message| != 1 then None else ProfileOfSizes(rrset[0].kv.value, message[0].kv.value)
  }

  predicate IsProfileKey(key: string) { key == "rrset-cache-size" || key == "msg-cache-size" }

  ghost predicate ProfileConsumed(blocks: seq<ParsedBlock>, p: Place) {
    ServerPlace(blocks, p) && IsProfileKey(blocks[p.block].directives[p.index].key) && ProfileOf(Items(blocks)).Some?
  }

  /** The lists of occurrences of some keys in all server blocks. */
  method CollectKeys(blocks: seq<ParsedBlock>, keys: seq<string>) returns (hits: map<string, seq<Item>>)
    ensures forall key | key in keys :: key in hits && hits[key] == Select(Items(blocks), KeyIs(key))
  {
    hide Select;
    hits := map key | key in keys :: [];
    forall key ensures Select([], KeyIs(key)) == [] { SelectNone([], KeyIs(key)); }
    for b := 0 to |blocks|
      invariant forall key | key in keys :: key in hits && hits[key] == Select(ServerItems(blocks, b), KeyIs(key))
    {
      if blocks[b].section == "server" {
        assert ItemsBefore(blocks, b, 0) == ServerItems(blocks, b);
        for i := 0 to |blocks[b].directives|
          invariant forall key | key in keys ::
                      key in hits && hits[key] == Select(ItemsBefore(blocks, b, i), KeyIs(key))
        {
          ItemsBeforeStep(blocks, b, i);
          var it := Item(Place(b, i), KVOf(blocks[b].directives[i]));
          forall key | key in keys
            ensures Select(ItemsBefore(blocks, b, i + 1), KeyIs(key)) ==
                    Select(ItemsBefore(blocks, b, i), KeyIs(key)) + (if it.kv.key == key then [it] else [])
          {
            SelectSnoc(ItemsBefore(blocks, b, i), it, KeyIs(key));
          }
          if it.kv.key in keys {
            hits := hits[it.kv.key := hits[it.kv.key] + [it]];
          }
        }
        assert ItemsBefore(blocks, b, |blocks[b].directives|) == ServerItems(blocks, b + 1);
      } else {
        assert ServerItems(blocks, b + 1) == ServerItems(blocks, b);
      }
    }
  }

  /** The single occurrence of a key has the place of every directive with that key. */
  lemma OnlyPlace(blocks: seq<ParsedBlock>, key: string, only: Item, p: Place)
    requires Select(Items(blocks), KeyIs(key)) == [only]
    ensures p == only.place <==> ServerPlace(blocks, p) && blocks[p.block].directives[p.index].key == key
  {
    hide Select, ServerItems;
    var items := Items(blocks);
    assert only in [only];
    SelectMember(items, KeyIs(key), only);
    ItemsAreServerPlaces(blocks, |blocks|, only);
    if ServerPlace(blocks, p) && blocks[p.block].directives[p.index].key == key {
      var it := Item(p, KVOf(blocks[p.block].directives[p.index]));
      ItemsAreServerPlaces(blocks, |blocks|, it);
      SelectMember(items, KeyIs(key), it);
      assert it in [only];
    }
  }

  method ExtractNetworkMode(blocks: seq<ParsedBlock>)
    returns (mode: Option<string>, consumed: set<Place>, findings: seq<Finding>)
    ensures mode == NetworkModeOf(Items(blocks))
    ensures forall p :: p in consumed <==> ModeConsumed(blocks, p)
    ensures findings == ModeFindings(blocks)
  {
    hide Select, Items, LineAt;
    var hits := CollectKeys(blocks, ["do-ip4", "do-ip6", "prefer-ip6"]);
    mode, consumed, findings := None, {}, [];
    var keys := ["do-ip4", "do-ip6", "prefer-ip6"];
    assert keys[0] in keys && keys[1] in keys && keys[2] in keys;
    if |hits["do-ip4"]| != 1 || |hits["do-ip6"]| != 1 || |hits["prefer-ip6"]| != 1 {
      return;
    }
    var ip4: Item, ip6: Item, prefer6: Item := hits["do-ip4"][0], hits["do-ip6"][0], hits["prefer-ip6"][0];
    mode := ModeOfFlags(ToLower(ip4.kv.value), ToLower(ip6.kv.value), ToLower(prefer6.kv.value));
    if mode.None? {
      return;
    }
    consumed := {ip4.place, ip6.place, prefer6.place};
    findings := [GuidedAt(LineAt(blocks, ip4.place), "do-ip4", ToLower(ip4.kv.value)),
                 GuidedAt(LineAt(blocks, ip6.place), "do-ip6", ToLower(ip6.kv.value)),
                 GuidedAt(LineAt(blocks, prefer6.place), "prefer-ip6", ToLower(prefer6.kv.value))];
    forall p ensures p in consumed <==> ModeConsumed(blocks, p) {
      OnlyPlace(blocks, "do-ip4", ip4, p);
      OnlyPlace(blocks, "do-ip6", ip6, p);
      OnlyPlace(blocks, "prefer-ip6", prefer6, p);
    }
  }

  method ExtractResourceProfile(blocks: seq<ParsedBlock>)
    returns (profile: Option<string>, consumed: set<Place>, findings: seq<Finding>)
    ensures profile == ProfileOf(Items(blocks))
    ensures forall p :: p in consumed <==> ProfileConsumed(blocks, p)
    ensures findings == ProfileFindings(blocks)
  {
    hide Select, Items, LineAt;
    var keys := ["rrset-cache-size", "msg-cache-size"];
    var hits := CollectKeys(blocks, keys);
    assert keys[0] in keys && keys[1] in keys;
    profile, consumed, findings := None, {}, [];
    if |hits["rrset-cache-size"]| != 1 || |hits["msg-cache-size"]| != 1 {
      return;
    }
    var rrset: Item, message: Item := hits["rrset-cache-size"][0], hits["msg-cache-size"][0];
    var k := 0;
    while k < |PROFILES| && profile.None?
      invariant 0 <= k <= |PROFILES|
      invariant profile.None? ==> forall j | 0 <= j < k ::
                  ProfileSizes(PROFILES[j]) != Some(CacheSizes(rrset.kv.value, message.kv.value))
      invariant profile.Some? ==> profile == ProfileOfSizes(rrset.kv.value, message.kv.value)
    {
      if ProfileSizes(PROFILES[k]) == Some(CacheSizes(rrset.kv.value, message.kv.value)) {
        profile := Some(PROFILES[k]);
      }
      k := k + 1;
    }
    if profile.None? {
      return;
    }
    consumed := {rrset.place, message.place};
    findings := [GuidedAt(LineAt(blocks, rrset.place), "rrset-cache-size", rrset.kv.value),
                 GuidedAt(LineAt(blocks, message.place), "msg-cache-size", message.kv.value)];
    forall p ensures p in consumed <==> ProfileConsumed(blocks, p) {
      OnlyPlace(blocks, "rrset-cache-size", rrset, p);
      OnlyPlace(blocks, "msg-cache-size", message, p);
    }
  }
}
