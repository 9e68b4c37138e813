/**
  The extractors of the importer that read whole clauses and groups of lines (import.go:248-519): forward
  zones and local zones. The functions say what is found and which places are consumed; the methods run the
  source's loops over the parsed blocks.
 */
module UnboundExtract {
  import opened Text
  import opened Seqs
  import opened UnboundSettings
  import opened UnboundParse

  /** A directive's place: block number, and index within the block. */
  datatype Place = Place(block: nat, index: nat)

  /** A directive of a `server:` block together with its place. */
  datatype Item = Item(place: Place, kv: KV)

  // ---------- findings ----------

  datatype Disposition = Guided | FixedBase | Expert | Blocked

  datatype Finding = Finding(section: string, line: nat, directive: string, value: string, disposition: Disposition)

  /** `appendGuidedFinding`. */
  function GuidedAt(line: nat, directive: string, value: string): Finding {
    Finding("server", line, directive, value, Guided)
  }

  // ---------- forward zones ----------

  datatype Draft = Draft(zone: ForwardZone, clean: bool)

  const EMPTY_DRAFT := Draft(ForwardZone("", [], false, false, false), true)

  function DraftStep(d: Draft, kv: KV): Draft {
    match kv.key
    case "name" => d.(zone := d.zone.(name := kv.value))
    case "forward-addr" => d.(zone := d.zone.(servers := d.zone.servers + [kv.value]))
    case "forward-first" => d.(zone := d.zone.(forwardFirst := ToLower(kv.value) == "yes"))
    case _ => d.(clean := false)
  }

  function DraftOf(kvs: seq<KV>): Draft {
    if kvs == [] then EMPTY_DRAFT else DraftStep(DraftOf(kvs[..|kvs| - 1]), kvs[|kvs| - 1])
  }

  predicate CleanZone(ip: Netip, d: Draft) {
    d.clean && d.zone.name != "" && d.zone.servers != [] && ValidZoneName(d.zone.name) &&
    forall i | 0 <= i < |d.zone.servers| :: ValidServer(ip, d.zone.servers[i])
  }

  /** The guided zone a block maps to, if it is a clean forward-zone clause. */
  function MappedZone(ip: Netip, block: ParsedBlock): Option<ForwardZone> {
    var d := DraftOf(KVs(block.directives));
    if block.section == "forward-zone" && CleanZone(ip, d) then Some(d.zone) else None
  }

  function MappedZoneList(ip: Netip): ParsedBlock -> seq<ForwardZone> {
    (block: ParsedBlock) => match MappedZone(ip, block) case Some(z) => [z] case None => []
  }

  function MappedZones(ip: Netip, blocks: seq<ParsedBlock>): seq<ForwardZone> { Flat(blocks, MappedZoneList(ip)) }

  function ZoneFinding(ip: Netip): ParsedBlock -> seq<Finding> {
    (block: ParsedBlock) =>
      match MappedZone(ip, block)
      case Some(z) => [Finding("forward-zone", block.lineStart, "forward-zone", z.name, Guided)]
      case None => []
  }

  ghost predicate NamesOf(zones: seq<ForwardZone>, names: set<string>) {
    forall n :: n in names <==> exists i | 0 <= i < |zones| :: zones[i].name == n
  }

  lemma NamesGrow(zones: seq<ForwardZone>, names: set<string>, zone: ForwardZone)
    requires NamesOf(zones, names)
    ensures NamesOf(zones + [zone], names + {zone.name})
  {
    var all := zones + [zone];
    forall n ensures n in names + {zone.name} <==> exists i | 0 <= i < |all| :: all[i].name == n {
      if n == zone.name {
        assert all[|zones|].name == n;
      }
      if i :| 0 <= i < |zones| && zones[i].name == n {
        assert all[i].name == n;
      }
    }
  }

  method ExtractForwardZones(ip: Netip, blocks: seq<ParsedBlock>)
    returns (zones: seq<ForwardZone>, zoneNames: set<string>, mapped: set<nat>, findings: seq<Finding>)
    ensures zones == MappedZones(ip, blocks)
    ensures findings == Flat(blocks, ZoneFinding(ip))
    ensures NamesOf(zones, zoneNames)
    ensures forall b :: b in mapped <==> 0 <= b < |blocks| && MappedZone(ip, blocks[b]).Some?
  {
    hide CleanZone, DraftOf, ValidZoneName, ValidServer, NamesOf, MappedZone, MappedZoneList, ZoneFinding;
    NoNames();
    FlatNothing(MappedZoneList(ip));
    FlatNothing(ZoneFinding(ip));
    zones, zoneNames, mapped, findings := [], {}, {}, [];
    for b := 0 to |blocks|
      invariant zones == MappedZones(ip, blocks[..b]) && findings == Flat(blocks[..b], ZoneFinding(ip))
      invariant NamesOf(zones, zoneNames)
      invariant forall k :: k in mapped <==> 0 <= k < b && MappedZone(ip, blocks[k]).Some?
    {
      FlatSnoc(blocks, b, MappedZoneList(ip));
      FlatSnoc(blocks, b, ZoneFinding(ip));
      var block := blocks[b];
      BlockYields(ip, block);
      if block.section == "forward-zone" {
        var zone, accepted := ReadForwardZone(ip, block.directives);
        if accepted {
          NamesGrow(zones, zoneNames, zone);
          zones, zoneNames, mapped := zones + [zone], zoneNames + {zone.name}, mapped + {b};
          findings := findings + [Finding("forward-zone", block.lineStart, "forward-zone", zone.name, Guided)];
        }
      }
    }
    assert blocks[..|blocks|] == blocks;
  }

  /** What one block adds to the zones and to the findings. */
  lemma BlockYields(ip: Netip, block: ParsedBlock)
    ensures var d, z := DraftOf(KVs(block.directives)), MappedZone(ip, block);
            (z.Some? <==> block.section == "forward-zone" && CleanZone(ip, d)) && (z.Some? ==> z.value == d.zone) &&
            MappedZoneList(ip)(block) == (if z.Some? then [z.value] else []) &&
            ZoneFinding(ip)(block) ==
              (if z.Some? then [Finding("forward-zone", block.lineStart, "forward-zone", z.value.name, Guided)] else [])
  {
    hide CleanZone, DraftOf;
  }

  lemma NoNames()
    ensures NamesOf([], {})
  {
  }

  method ReadForwardZone(ip: Netip, directives: seq<ParsedDirective>) returns (zone: ForwardZone, accepted: bool)
    ensures accepted <==> CleanZone(ip, DraftOf(KVs(directives)))
    ensures accepted ==> zone == DraftOf(KVs(directives)).zone
  {
    hide ValidZoneName;
    var draft := EMPTY_DRAFT;
    for i := 0 to |directives|
      invariant draft == DraftOf(KVs(directives[..i]))
    {
      assert KVs(directives[..i + 1])[..i] == KVs(directives[..i]);
      draft := DraftStep(draft, KVOf(directives[i]));
    }
    assert directives[..|directives|] == directives;
    zone := draft.zone;
    if !draft.clean || zone.name == "" || |zone.servers| == 0 || !ValidZoneName(zone.name) {
      return zone, false;
    }
    for i := 0 to |zone.servers|
      invariant forall k | 0 <= k < i :: ValidServer(ip, zone.servers[k])
    {
      if !ValidServer(ip, zone.servers[i]) {
        return zone, false;
      }
    }
    return zone, true;
  }

  // ---------- local host zones ----------

  datatype NamedType = NamedType(name: string, zoneType: string)

  /** Splits `"name" type`, which `Unquote` leaves untouched. */
  function ParseLocalZoneValue(value: string): Option<NamedType> {
    if !HasPrefix(value, "\"") then None
    else
      var close := FirstIndex(value[1..], '"');
      if close == |value[1..]| then None
      else
        var zoneType := TrimSpace(value[1 + close + 1..]);
        if zoneType == "" then None else Some(NamedType(value[1..1 + close], zoneType))
  }

  /** Hosts in order of first appearance, and what is known of each. */
  datatype Inventory = Inventory(order: seq<string>, hosts: map<string, LocalHost>)

  ghost predicate WellOrdered(inv: Inventory) { forall i | 0 <= i < |inv.order| :: inv.order[i] in inv.hosts }

  function EnsureHost(inv: Inventory, hostname: string): Inventory {
    if hostname in inv.hosts then inv
    else Inventory(inv.order + [hostname], inv.hosts[hostname := LocalHost(hostname, "", "", false)])
  }

  function AddData(ip: Netip, zoneName: string, inv: Inventory, value: string): Option<Inventory> {
    var fields := Fields(value);
    var suffix := "." + zoneName;
    if |fields| != 4 || ToLower(fields[1]) != "in" || !HasSuffix(fields[0], suffix) then None
    else
      var hostname := TrimSuffix(fields[0], suffix);
      if hostname == "" || !ValidHostLabel(hostname) then None
      else
        var next := EnsureHost(inv, hostname);
        var host := next.hosts[hostname];
        var address := fields[3];
        if ToLower(fields[2]) == "a" then
          if host.ipv4 != "" || !ValidLocalAddress(ip, address, true) then None
          else Some(next.(hosts := next.hosts[hostname := host.(ipv4 := address)]))
        else if ToLower(fields[2]) == "aaaa" then
          if host.ipv6 != "" || !ValidLocalAddress(ip, address, false) then None
          else Some(next.(hosts := next.hosts[hostname := host.(ipv6 := address)]))
        else None
  }

  function AddPtr(zoneName: string, inv: Inventory, value: string): Option<Inventory> {
    var fields := Fields(value);
    var suffix := "." + TrimSuffix(zoneName, ".");
    if |fields| != 2 then None
    else
      var target := TrimSuffix(fields[1], ".");
      if !HasSuffix(target, suffix) then None
      else
        var hostname := TrimSuffix(target, suffix);
        if hostname !in inv.hosts then None
        else
          var host := inv.hosts[hostname];
          if host.ipv4 != fields[0] && host.ipv6 != fields[0] then None
          else Some(inv.(hosts := inv.hosts[hostname := host.(ptr := true)]))
  }

  function AddLine(ip: Netip, zoneName: string, inv: Inventory, kv: KV): Option<Inventory> {
    if kv.key == "local-data" then AddData(ip, zoneName, inv, kv.value)
    else if kv.key == "local-data-ptr" then AddPtr(zoneName, inv, kv.value)
    else Some(inv)
  }

  lemma AddLineOrdered(ip: Netip, zoneName: string, inv: Inventory, kv: KV)
    requires WellOrdered(inv) && AddLine(ip, zoneName, inv, kv).Some?
    ensures WellOrdered(AddLine(ip, zoneName, inv, kv).value)
  {
    hide Fields, ValidHostLabel, ValidLocalAddress, HasSuffix, TrimSuffix, ToLower;
  }

  /** The host inventory stated by the lines of a group, if every line fits the guided model. */
  function InventoryOf(ip: Netip, zoneName: string, lines: seq<KV>): Option<Inventory> {
    if lines == [] then Some(Inventory([], map[]))
    else
      match InventoryOf(ip, zoneName, lines[..|lines| - 1])
      case None => None
      case Some(inv) => AddLine(ip, zoneName, inv, lines[|lines| - 1])
  }

  lemma {:induction false} InventoryOfFails(ip: Netip, zoneName: string, lines: seq<KV>, i: nat)
    requires i <= |lines| && InventoryOf(ip, zoneName, lines[..i]).None?
    ensures InventoryOf(ip, zoneName, lines).None?
  {
    hide AddLine;
    if i == |lines| {
      assert lines[..i] == lines;
    } else {
      assert lines[..|lines| - 1][..i] == lines[..i];
      InventoryOfFails(ip, zoneName, lines[..|lines| - 1], i);
    }
  }

  lemma {:induction false} InventoryOrdered(ip: Netip, zoneName: string, lines: seq<KV>)
    requires InventoryOf(ip, zoneName, lines).Some?
    ensures WellOrdered(InventoryOf(ip, zoneName, lines).value)
  {
    hide AddLine;
    if lines != [] {
      InventoryOrdered(ip, zoneName, lines[..|lines| - 1]);
      AddLineOrdered(ip, zoneName, InventoryOf(ip, zoneName, lines[..|lines| - 1]).value, lines[|lines| - 1]);
    }
  }

  function InventoryHosts(inv: Inventory): (hosts: seq<LocalHost>)
    requires WellOrdered(inv)
    ensures |hosts| == |inv.order|
  {
    seq(|inv.order|, i requires 0 <= i < |inv.order| => inv.hosts[inv.order[i]])
  }

  function BuildLocalZone(ip: Netip, zoneName: string, lines: seq<KV>): Option<LocalZone> {
    match InventoryOf(ip, zoneName, lines)
    case None => None
    case Some(inv) =>
      InventoryOrdered(ip, zoneName, lines);
      if inv.order == [] then None else Some(LocalZone(zoneName, InventoryHosts(inv)))
  }

  predicate IsData(kv: KV) { kv.key == "local-data" || kv.key == "local-data-ptr" }

  /** End of the run of data lines that starts at `i`. */
  function GroupStop(kvs: seq<KV>, i: nat): (stop: nat)
    requires i <= |kvs|
    ensures i <= stop <= |kvs|
    ensures forall k | i <= k < stop :: IsData(kvs[k])
    ensures stop < |kvs| ==> !IsData(kvs[stop])
    decreases |kvs| - i
  {
    if i < |kvs| && IsData(kvs[i]) then GroupStop(kvs, i + 1) else i
  }

  function StopAfter(kvs: seq<KV>, i: nat): (stop: nat)
    requires i < |kvs|
    ensures i < stop <= |kvs|
    ensures forall k | i < k < stop :: IsData(kvs[k])
  {
    GroupStop(kvs, i + 1)
  }

  function ZoneOfGroup(ip: Netip, header: KV, lines: seq<KV>): Option<LocalZone> {
    match ParseLocalZoneValue(header.value)
    case None => None
    case Some(v) =>
      if v.zoneType != "static" || !ValidZoneName(v.name) || IsReservedReverseName(v.name) then None
      else BuildLocalZone(ip, v.name, lines)
  }

  /** The guided zone opened by directive `i`, if its group maps cleanly. */
  function GroupAt(ip: Netip, kvs: seq<KV>, i: nat): Option<LocalZone>
    requires i < |kvs|
  {
    if kvs[i].key != "local-zone" then None else ZoneOfGroup(ip, kvs[i], kvs[i + 1..StopAfter(kvs, i)])
  }

  function ZonesUpTo(ip: Netip, kvs: seq<KV>, n: nat): seq<LocalZone>
    requires n <= |kvs|
  {
    if n == 0 then []
    else ZonesUpTo(ip, kvs, n - 1) + (match GroupAt(ip, kvs, n - 1) case Some(z) => [z] case None => [])
  }

  /** One finding per group that maps, at its first line. */
  function GroupFindings(ip: Netip, ds: seq<ParsedDirective>, n: nat): seq<Finding>
    requires n <= |ds|
  {
    if n == 0 then []
    else
      GroupFindings(ip, ds, n - 1) +
      (match GroupAt(ip, KVs(ds), n - 1)
       case Some(z) => [GuidedAt(ds[n - 1].line, "local-zone", z.name)]
       case None => [])
  }

  /** Directive `i` belongs to a group that maps to a guided zone. */
  ghost predicate InGroup(ip: Netip, kvs: seq<KV>, i: nat) {
    exists start | 0 <= start <= i < |kvs| :: GroupAt(ip, kvs, start).Some? && i < StopAfter(kvs, start)
  }

  lemma ZonesUpToSkips(ip: Netip, kvs: seq<KV>, i: nat, stop: nat)
    requires i <= stop <= |kvs| && forall k | i <= k < stop :: IsData(kvs[k])
    ensures ZonesUpTo(ip, kvs, stop) == ZonesUpTo(ip, kvs, i)
    decreases stop - i
  {
    hide ZoneOfGroup;
    if i < stop {
      ZonesUpToSkips(ip, kvs, i, stop - 1);
      assert IsData(kvs[stop - 1]) && kvs[stop - 1].key != "local-zone";
    }
  }

  lemma GroupFindingsSkips(ip: Netip, ds: seq<ParsedDirective>, i: nat, stop: nat)
    requires i <= stop <= |ds| && forall k | i <= k < stop :: IsData(KVs(ds)[k])
    ensures GroupFindings(ip, ds, stop) == GroupFindings(ip, ds, i)
    decreases stop - i
  {
    hide ZoneOfGroup;
    if i < stop {
      GroupFindingsSkips(ip, ds, i, stop - 1);
      assert IsData(KVs(ds)[stop - 1]) && ds[stop - 1].key != "local-zone";
    }
  }

  function LocalFinding(ip: Netip): ParsedBlock -> seq<Finding> {
    (block: ParsedBlock) =>
      if block.section == "server" then GroupFindings(ip, block.directives, |block.directives|) else []
  }

  function LocalZonesOfBlock(ip: Netip): ParsedBlock -> seq<LocalZone> {
    (block: ParsedBlock) =>
      if block.section == "server" then ZonesUpTo(ip, KVs(block.directives), |block.directives|) else []
  }

  function LocalZonesIn(ip: Netip, blocks: seq<ParsedBlock>): seq<LocalZone> {
    Flat(blocks, LocalZonesOfBlock(ip))
  }

  /** `p` is the place of a directive in a server block. */
  predicate ServerPlace(blocks: seq<ParsedBlock>, p: Place) {
    p.block < |blocks| && blocks[p.block].section == "server" && p.index < |blocks[p.block].directives|
  }

  ghost predicate LocalConsumed(ip: Netip, blocks: seq<ParsedBlock>, p: Place) {
    ServerPlace(blocks, p) && InGroup(ip, KVs(blocks[p.block].directives), p.index)
  }

  /** The data lines of a group, as far as they can be read. */
  method ReadData(ip: Netip, zoneName: string, lines: seq<ParsedDirective>, from: nat)
    returns (read: Option<Inventory>, used: set<nat>)
    requires forall k | 0 <= k < |lines| :: IsData(KVOf(lines[k]))
    ensures read == InventoryOf(ip, zoneName, KVs(lines))
    ensures read.Some? ==> forall k :: k in used <==> from <= k < from + |lines|
  {
    hide AddData, AddPtr;
    used := {};
    var inv := Inventory([], map[]);
    for offset := 0 to |lines|
      invariant InventoryOf(ip, zoneName, KVs(lines[..offset])) == Some(inv)
      invariant forall k :: k in used <==> from <= k < from + offset
    {
      var d := lines[offset];
      assert KVs(lines[..offset + 1])[..offset] == KVs(lines[..offset]);
      assert KVs(lines)[..offset + 1] == KVs(lines[..offset + 1]);
      var next := if d.key == "local-data" then AddData(ip, zoneName, inv, d.value) else AddPtr(zoneName, inv, d.value);
      if next.None? {
        InventoryOfFails(ip, zoneName, KVs(lines), offset + 1);
        return None, used;
      }
      inv := next.value;
      used := used + {from + offset};
    }
    assert lines[..|lines|] == lines;
    return Some(inv), used;
  }

  /** `used` lists the absolute index of every line of the group when the group is clean. */
  method BuildLocalZoneCandidate(ip: Netip, zoneName: string, group: seq<ParsedDirective>, groupStart: nat)
    returns (zone: LocalZone, used: set<nat>, clean: bool)
    requires |group| > 0 && forall k | 1 <= k < |group| :: IsData(KVOf(group[k]))
    ensures clean <==> BuildLocalZone(ip, zoneName, KVs(group[1..])).Some?
    ensures clean ==> Some(zone) == BuildLocalZone(ip, zoneName, KVs(group[1..]))
    ensures clean ==> forall k :: k in used <==> groupStart <= k < groupStart + |group|
  {
    hide AddData, AddPtr;
    zone, clean := LocalZone(zoneName, []), false;
    assert forall k | 0 <= k < |group[1..]| :: IsData(KVOf(group[1..][k]));
    var read, more := ReadData(ip, zoneName, group[1..], groupStart + 1);
    used := {groupStart} + more;
    if read.None? {
      return;
    }
    var inv := read.value;
    InventoryOrdered(ip, zoneName, KVs(group[1..]));
    if |inv.order| == 0 {
      return;
    }
    var hosts: seq<LocalHost> := [];
    for i := 0 to |inv.order|
      invariant hosts == InventoryHosts(inv)[..i]
    {
      hosts := hosts + [inv.hosts[inv.order[i]]];
    }
    assert hosts == InventoryHosts(inv);
    zone, clean := LocalZone(zoneName, hosts), true;
  }

  /** Every group that starts before `i` also ends before it. */
  ghost predicate GroupsEndBefore(kvs: seq<KV>, i: nat) {
    forall start | 0 <= start < i && start < |kvs| :: kvs[start].key == "local-zone" ==> StopAfter(kvs, start) <= i
  }

  lemma GroupMembers(ip: Netip, kvs: seq<KV>, i: nat, k: nat)
    requires i < |kvs| && GroupsEndBefore(kvs, i)
    requires i <= k && (k < StopAfter(kvs, i) || k == i)
    ensures InGroup(ip, kvs, k) <==> GroupAt(ip, kvs, i).Some?
  {
    hide ZoneOfGroup;
    forall start | 0 <= start <= k && GroupAt(ip, kvs, start).Some? && k < StopAfter(kvs, start)
      ensures start == i
    {
    }
  }

  /** The group opened by directive `i`: where it ends, and its zone and lines if it maps cleanly. */
  method ReadGroup(ip: Netip, directives: seq<ParsedDirective>, i: nat)
    returns (stop: nat, zone: Option<LocalZone>, indexes: set<nat>)
    requires i < |directives| && directives[i].key == "local-zone"
    ensures stop == StopAfter(KVs(directives), i)
    ensures zone == GroupAt(ip, KVs(directives), i)
    ensures zone.Some? ==> forall k :: k in indexes <==> i <= k < stop
  {
    hide BuildLocalZone, ParseLocalZoneValue, ValidZoneName, IsReservedReverseName;
    ghost var kvs := KVs(directives);
    stop := i + 1;
    while stop < |directives| && IsData(KVOf(directives[stop]))
      invariant i < stop <= |directives| && GroupStop(kvs, i + 1) == GroupStop(kvs, stop)
      invariant forall k | i < k < stop :: IsData(kvs[k])
    {
      stop := stop + 1;
    }
    zone, indexes := None, {};
    assert KVs(directives[i..stop][1..]) == kvs[i + 1..stop];
    var parsed := ParseLocalZoneValue(directives[i].value);
    if parsed.None? || parsed.value.zoneType != "static" || !ValidZoneName(parsed.value.name) {
      return;
    }
    if IsReservedReverseName(parsed.value.name) {
      return;
    }
    var built, used, clean := BuildLocalZoneCandidate(ip, parsed.value.name, directives[i..stop], i);
    if clean {
      zone, indexes := Some(built), used;
    }
  }

  method ExtractLocalZonesOfBlock(ip: Netip, directives: seq<ParsedDirective>)
    returns (zones: seq<LocalZone>, used: set<nat>, findings: seq<Finding>)
    ensures zones == ZonesUpTo(ip, KVs(directives), |directives|)
    ensures findings == GroupFindings(ip, directives, |directives|)
    ensures forall k :: k in used <==> InGroup(ip, KVs(directives), k)
  {
    hide GroupAt, InGroup, StopAfter, ZonesUpTo, GroupFindings, GroupsEndBefore;
    ghost var kvs := KVs(directives);
    NothingBefore(ip, directives);
    zones, used, findings := [], {}, [];
    var i := 0;
    while i < |directives|
      invariant i <= |directives| && GroupsEndBefore(kvs, i)
      invariant zones == ZonesUpTo(ip, kvs, i) && findings == GroupFindings(ip, directives, i)
      invariant forall k: nat :: k in used <==> k < i && InGroup(ip, kvs, k)
    {
      OneMoreGroup(ip, directives, i);
      if directives[i].key != "local-zone" {
        NoGroupAt(ip, kvs, i);
        GroupMembers(ip, kvs, i, i);
        i := i + 1;
        continue;
      }
      var stop, zone, indexes := ReadGroup(ip, directives, i);
      ZonesUpToSkips(ip, kvs, i + 1, stop);
      GroupFindingsSkips(ip, directives, i + 1, stop);
      forall k: nat | i <= k < stop ensures InGroup(ip, kvs, k) <==> zone.Some? {
        GroupMembers(ip, kvs, i, k);
      }
      EndsBeforeStop(kvs, i);
      if zone.Some? {
        zones := zones + [zone.value];
        used := used + indexes;
        findings := findings + [GuidedAt(directives[i].line, "local-zone", zone.value.name)];
      }
      i := stop;
    }
    forall k: nat ensures InGroup(ip, kvs, k) ==> k < |directives| { InGroupInside(ip, kvs, k); }
  }

  lemma NothingBefore(ip: Netip, ds: seq<ParsedDirective>)
    ensures GroupsEndBefore(KVs(ds), 0) && ZonesUpTo(ip, KVs(ds), 0) == [] && GroupFindings(ip, ds, 0) == []
  {
  }

  lemma OneMoreGroup(ip: Netip, ds: seq<ParsedDirective>, i: nat)
    requires i < |ds|
    ensures var z := GroupAt(ip, KVs(ds), i);
            ZonesUpTo(ip, KVs(ds), i + 1) == ZonesUpTo(ip, KVs(ds), i) + (if z.Some? then [z.value] else []) &&
            GroupFindings(ip, ds, i + 1) ==
              GroupFindings(ip, ds, i) + (if z.Some? then [GuidedAt(ds[i].line, "local-zone", z.value.name)] else [])
    ensures GroupsEndBefore(KVs(ds), i) && KVs(ds)[i].key != "local-zone" ==> GroupsEndBefore(KVs(ds), i + 1)
  {
    hide GroupAt, StopAfter;
  }

  lemma NoGroupAt(ip: Netip, kvs: seq<KV>, i: nat)
    requires i < |kvs| && kvs[i].key != "local-zone"
    ensures GroupAt(ip, kvs, i) == None
  {
  }

  lemma EndsBeforeStop(kvs: seq<KV>, i: nat)
    requires i < |kvs| && GroupsEndBefore(kvs, i)
    ensures GroupsEndBefore(kvs, StopAfter(kvs, i))
  {
    forall start | i < start < StopAfter(kvs, i) ensures kvs[start].key != "local-zone" {
      assert IsData(kvs[start]);
    }
  }

  lemma InGroupInside(ip: Netip, kvs: seq<KV>, k: nat)
    ensures InGroup(ip, kvs, k) ==> k < |kvs|
  {
  }

  method ExtractLocalZones(ip: Netip, blocks: seq<ParsedBlock>)
    returns (zones: seq<LocalZone>, consumed: set<Place>, findings: seq<Finding>)
    ensures zones == LocalZonesIn(ip, blocks) && findings == Flat(blocks, LocalFinding(ip))
    ensures forall p :: p in consumed <==> LocalConsumed(ip, blocks, p)
  {
    hide InGroup, ZonesUpTo, GroupFindings;
    zones, consumed, findings := [], {}, [];
    for b := 0 to |blocks|
      invariant zones == LocalZonesIn(ip, blocks[..b]) && findings == Flat(blocks[..b], LocalFinding(ip))
      invariant forall p :: p in consumed <==> p.block < b && LocalConsumed(ip, blocks, p)
    {
      FlatSnoc(blocks, b, LocalZonesOfBlock(ip));
      FlatSnoc(blocks, b, LocalFinding(ip));
      if blocks[b].section == "server" {
        var found, used, reported := ExtractLocalZonesOfBlock(ip, blocks[b].directives);
        zones, findings := zones + found, findings + reported;
        forall k | k in used ensures k < |blocks[b].directives| {
          InGroupInside(ip, KVs(blocks[b].directives), k);
        }
        consumed := consumed + set k | k in used :: Place(b, k);
      }
    }
    assert blocks[..|blocks|] == blocks;
  }
}
