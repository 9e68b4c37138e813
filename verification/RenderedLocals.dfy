/**
  Local zones in blocks that state a settings record: every zone's lines form one group, and the group's
  inventory is the zone's host list.
 */
module UnboundRenderedLocals {
  import opened Text
  import opened Seqs
  import opened UnboundSettings
  import opened UnboundRender
  import opened UnboundParse
  import opened UnboundRenderedBlocks
  import opened UnboundExtract
  import opened UnboundRenderedExtract
  import opened UnboundRenderedGroups

  // ---------- groups do not reach past a line that is not data ----------

  ghost predicate Breaks(b: seq<KV>) { b == [] || !IsData(b[0]) }

  lemma {:induction false} StopInFirst(a: seq<KV>, b: seq<KV>, i: nat)
    requires Breaks(b) && i <= |a|
    ensures GroupStop(a + b, i) == GroupStop(a, i)
    decreases |a| - i
  {
    if i < |a| && IsData(a[i]) {
      StopInFirst(a, b, i + 1);
    }
  }

  lemma {:induction false} StopInSecond(a: seq<KV>, b: seq<KV>, i: nat)
    requires i <= |b|
    ensures GroupStop(a + b, |a| + i) == |a| + GroupStop(b, i)
    decreases |b| - i
  {
    if i < |b| && IsData(b[i]) {
      StopInSecond(a, b, i + 1);
    }
  }

  lemma GroupInFirst(ip: Netip, a: seq<KV>, b: seq<KV>, i: nat)
    requires Breaks(b) && i < |a|
    ensures GroupAt(ip, a + b, i) == GroupAt(ip, a, i) && StopAfter(a + b, i) == StopAfter(a, i)
  {
    hide ZoneOfGroup;
    StopInFirst(a, b, i + 1);
    assert (a + b)[i + 1..StopAfter(a, i)] == a[i + 1..StopAfter(a, i)];
  }

  lemma GroupInSecond(ip: Netip, a: seq<KV>, b: seq<KV>, i: nat)
    requires i < |b|
    ensures GroupAt(ip, a + b, |a| + i) == GroupAt(ip, b, i) && StopAfter(a + b, |a| + i) == |a| + StopAfter(b, i)
  {
    hide ZoneOfGroup;
    StopInSecond(a, b, i + 1);
    assert (a + b)[|a| + i + 1..|a| + StopAfter(b, i)] == b[i + 1..StopAfter(b, i)];
  }

  lemma {:induction false} ZonesOfConcat(ip: Netip, a: seq<KV>, b: seq<KV>, n: nat)
    requires Breaks(b) && n <= |a| + |b|
    ensures ZonesUpTo(ip, a + b, n) ==
            if n <= |a| then ZonesUpTo(ip, a, n) else ZonesUpTo(ip, a, |a|) + ZonesUpTo(ip, b, n - |a|)
  {
    hide GroupAt;
    if n > 0 {
      ZonesOfConcat(ip, a, b, n - 1);
      if n <= |a| {
        GroupInFirst(ip, a, b, n - 1);
      } else {
        GroupInSecond(ip, a, b, n - 1 - |a|);
      }
    }
  }

  lemma InGroupOfConcat(ip: Netip, a: seq<KV>, b: seq<KV>, k: nat)
    requires Breaks(b)
    ensures InGroup(ip, a, k) ==> InGroup(ip, a + b, k)
    ensures InGroup(ip, b, k) ==> InGroup(ip, a + b, |a| + k)
  {
    hide GroupAt, StopAfter;
    if InGroup(ip, a, k) {
      var start :| 0 <= start <= k < |a| && GroupAt(ip, a, start).Some? && k < StopAfter(a, start);
      GroupInFirst(ip, a, b, start);
      assert GroupAt(ip, a + b, start).Some? && k < StopAfter(a + b, start);
    }
    if InGroup(ip, b, k) {
      var start :| 0 <= start <= k < |b| && GroupAt(ip, b, start).Some? && k < StopAfter(b, start);
      GroupInSecond(ip, a, b, start);
      assert GroupAt(ip, a + b, |a| + start).Some? && |a| + k < StopAfter(a + b, |a| + start);
    }
  }

  // ---------- the inventory of one zone ----------

  ghost predicate GoodLocalHost(ip: Netip, host: LocalHost) { ValidLocalHost(ip, host) && PlainHost(host) }

  ghost predicate GoodHosts(ip: Netip, hosts: seq<LocalHost>) {
    DistinctHostnames(hosts) && forall i | 0 <= i < |hosts| :: GoodLocalHost(ip, hosts[i])
  }

  /** A local zone whose lines read back as itself. */
  ghost predicate GoodLocal(ip: Netip, zone: LocalZone) {
    ValidZoneName(zone.name) && zone.hosts != [] && GoodHosts(ip, zone.hosts)
  }

  lemma SuffixSplits(prefix: string, suffix: string)
    ensures HasSuffix(prefix + suffix, suffix) && TrimSuffix(prefix + suffix, suffix) == prefix
  {
    assert (prefix + suffix)[|prefix|..] == suffix && (prefix + suffix)[..|prefix|] == prefix;
  }

  lemma DataFields(zoneName: string, host: LocalHost, recordType: string, address: string)
    requires ValidZoneName(zoneName) && ValidHostLabel(host.hostname) && PlainLiteral(address)
    requires recordType == "A" || recordType == "AAAA"
    ensures Fields(DataValue(zoneName, host, recordType, address)) ==
            [host.hostname + "." + zoneName, "IN", recordType, address]
  {
    hide ValidZoneName, ValidHostLabel, Fields, PlainLiteral;
    var fqdn := host.hostname + "." + zoneName;
    FqdnIsSafe(zoneName, host);
    AddressIsSafe(address);
    TypesAreTokens();
    FieldsOfToken(address);
    FieldsOfCons(recordType, address);
    FieldsOfCons("IN", recordType + " " + address);
    FieldsOfCons(fqdn, "IN" + " " + (recordType + " " + address));
    assert fqdn + " " + ("IN" + " " + (recordType + " " + address)) == fqdn + " IN " + recordType + " " + address;
  }

  lemma TypesAreTokens()
    ensures IsToken("IN") && IsToken("A") && IsToken("AAAA")
    ensures ToLower("IN") == "in" && ToLower("A") == "a" && ToLower("AAAA") == "aaaa"
  {
  }

  /** What reading one data line leaves of the inventory. */
  lemma DataLine(ip: Netip, zoneName: string, host: LocalHost, known: LocalHost, inv: Inventory, wantIPv4: bool)
    requires ValidZoneName(zoneName) && GoodLocalHost(ip, host) && known.hostname == host.hostname
    requires if wantIPv4 then host.ipv4 != "" && known.ipv4 == "" else host.ipv6 != "" && known.ipv6 == ""
    requires if host.hostname in inv.hosts then inv.hosts[host.hostname] == known
             else known == LocalHost(host.hostname, "", "", false)
    ensures var kv := KV("local-data", if wantIPv4 then DataValue(zoneName, host, "A", host.ipv4)
                                       else DataValue(zoneName, host, "AAAA", host.ipv6));
            AddLine(ip, zoneName, inv, kv) ==
            Some(Inventory(if host.hostname in inv.hosts then inv.order else inv.order + [host.hostname],
                           inv.hosts[host.hostname := if wantIPv4 then known.(ipv4 := host.ipv4)
                                                      else known.(ipv6 := host.ipv6)]))
  {
    hide ValidZoneName, ValidHostLabel, Fields, PlainLiteral, ValidLocalAddress, DataValue, ToLower, HasSuffix,
      TrimSuffix;
    TypesAreTokens();
    var recordType, address := if wantIPv4 then "A" else "AAAA", if wantIPv4 then host.ipv4 else host.ipv6;
    DataFields(zoneName, host, recordType, address);
    assert host.hostname + "." + zoneName == host.hostname + ("." + zoneName);
    SuffixSplits(host.hostname, "." + zoneName);
    LabelNotEmpty(host.hostname);
    var next := EnsureHost(inv, host.hostname);
    assert next.hosts[host.hostname] == known;
    var after := if wantIPv4 then known.(ipv4 := address) else known.(ipv6 := address);
    assert next.hosts[host.hostname := after] == inv.hosts[host.hostname := after];
  }

  lemma LabelNotEmpty(part: string)
    requires ValidHostLabel(part)
    ensures part != ""
  {
  }

  lemma PtrFields(zoneName: string, host: LocalHost, address: string)
    requires ValidZoneName(zoneName) && ValidHostLabel(host.hostname) && PlainLiteral(address)
    ensures var suffix := "." + TrimSuffix(zoneName, ".");
            Fields(PtrValue(zoneName, host, address)) == [address, host.hostname + suffix] &&
            TrimSuffix(host.hostname + suffix, ".") == host.hostname + suffix
  {
    hide ValidZoneName, ValidHostLabel, Fields, PlainLiteral;
    ZoneNameChars(zoneName);
    FqdnIsSafe(zoneName, host);
    AddressIsSafe(address);
    var body := zoneName[..|zoneName| - 1];
    var target := host.hostname + ("." + body);
    assert host.hostname + "." + zoneName == target + ".";
    SuffixSplits(target, ".");
    SuffixSplits(body, ".");
    forall c | c in target ensures !IsSpace(c) { assert c in target + "."; }
    FieldsOfToken(target);
    FieldsOfCons(address, target);
    assert target[|target| - 1] == zoneName[|zoneName| - 2] != '.';
  }

  lemma PtrLine(ip: Netip, zoneName: string, host: LocalHost, inv: Inventory, address: string)
    requires ValidZoneName(zoneName) && GoodLocalHost(ip, host) && host.ptr
    requires address != "" && (address == host.ipv4 || address == host.ipv6)
    requires host.hostname in inv.hosts && inv.hosts[host.hostname].(ptr := true) == host
    ensures AddLine(ip, zoneName, inv, KV("local-data-ptr", PtrValue(zoneName, host, address))) ==
            Some(inv.(hosts := inv.hosts[host.hostname := host]))
  {
    hide ValidZoneName, ValidHostLabel, Fields, PlainLiteral, ValidLocalAddress, PtrValue, HasSuffix, TrimSuffix;
    PtrFields(zoneName, host, address);
    SuffixSplits(host.hostname, "." + TrimSuffix(zoneName, "."));
  }

  lemma InventorySnoc(ip: Netip, zoneName: string, lines: seq<KV>, kv: KV)
    requires InventoryOf(ip, zoneName, lines).Some?
    ensures InventoryOf(ip, zoneName, lines + [kv]) == AddLine(ip, zoneName, InventoryOf(ip, zoneName, lines).value, kv)
  {
    hide AddLine;
    assert (lines + [kv])[..|lines|] == lines;
  }

  lemma InventoryStep(ip: Netip, zoneName: string, lines: seq<KV>, inv: Inventory, present: bool, kv: KV,
                      after: Inventory)
    requires InventoryOf(ip, zoneName, lines) == Some(inv)
    requires if present then AddLine(ip, zoneName, inv, kv) == Some(after) else after == inv
    ensures InventoryOf(ip, zoneName, lines + (if present then [kv] else [])) == Some(after)
  {
    hide AddLine, InventoryOf;
    if present {
      InventorySnoc(ip, zoneName, lines, kv);
    } else {
      assert lines + [] == lines;
    }
  }

  /** The inventory after the host's data lines, before its PTR lines. */
  function WithHost(inv: Inventory, host: LocalHost): Inventory {
    Inventory(inv.order + [host.hostname], inv.hosts[host.hostname := host])
  }

  lemma HostData(ip: Netip, zoneName: string, host: LocalHost, lines: seq<KV>, inv: Inventory)
    requires ValidZoneName(zoneName) && GoodLocalHost(ip, host) && host.hostname !in inv.hosts
    requires InventoryOf(ip, zoneName, lines) == Some(inv)
    ensures InventoryOf(ip, zoneName, lines +
              (if host.ipv4 != "" then [KV("local-data", DataValue(zoneName, host, "A", host.ipv4))] else []) +
              (if host.ipv6 != "" then [KV("local-data", DataValue(zoneName, host, "AAAA", host.ipv6))] else [])) ==
            Some(WithHost(inv, host.(ptr := false)))
  {
    hide ValidZoneName, ValidHostLabel, AddLine, InventoryOf, DataValue, PlainLiteral, ValidLocalAddress;
    var d4, d6 := KV("local-data", DataValue(zoneName, host, "A", host.ipv4)),
      KV("local-data", DataValue(zoneName, host, "AAAA", host.ipv6));
    var empty := LocalHost(host.hostname, "", "", false);
    var known := empty.(ipv4 := host.ipv4);
    var first := if host.ipv4 != "" then WithHost(inv, known) else inv;
    if host.ipv4 != "" {
      DataLine(ip, zoneName, host, empty, inv, true);
    }
    InventoryStep(ip, zoneName, lines, inv, host.ipv4 != "", d4, first);
    var after := WithHost(inv, host.(ptr := false));
    if host.ipv6 != "" {
      DataLine(ip, zoneName, host, known, first, false);
      assert first.hosts[host.hostname := known.(ipv6 := host.ipv6)] == after.hosts;
    }
    InventoryStep(ip, zoneName, lines + (if host.ipv4 != "" then [d4] else []), first, host.ipv6 != "", d6, after);
  }

  /** The lines of one host add that host. */
  lemma HostInventory(ip: Netip, zoneName: string, host: LocalHost, lines: seq<KV>, inv: Inventory)
    requires ValidZoneName(zoneName) && GoodLocalHost(ip, host) && host.hostname !in inv.hosts
    requires InventoryOf(ip, zoneName, lines) == Some(inv)
    ensures InventoryOf(ip, zoneName, lines + HostKV(zoneName)(host)) == Some(WithHost(inv, host))
  {
    hide ValidZoneName, ValidHostLabel, AddLine, InventoryOf, DataValue, PtrValue, PlainLiteral, ValidLocalAddress;
    var v4, v6 := host.ipv4 != "", host.ipv6 != "";
    var d4, d6 := KV("local-data", DataValue(zoneName, host, "A", host.ipv4)),
      KV("local-data", DataValue(zoneName, host, "AAAA", host.ipv6));
    var p4, p6 := KV("local-data-ptr", PtrValue(zoneName, host, host.ipv4)),
      KV("local-data-ptr", PtrValue(zoneName, host, host.ipv6));
    HostData(ip, zoneName, host, lines, inv);
    var l2 := lines + (if v4 then [d4] else []) + (if v6 then [d6] else []);
    var i2, i4 := WithHost(inv, host.(ptr := false)), WithHost(inv, host);
    var i3 := if host.ptr && v4 then i4 else i2;
    assert i2.hosts[host.hostname := host] == i4.hosts && i4.hosts[host.hostname := host] == i4.hosts;
    if host.ptr && v4 {
      PtrLine(ip, zoneName, host, i2, host.ipv4);
    }
    InventoryStep(ip, zoneName, l2, i2, host.ptr && v4, p4, i3);
    if host.ptr && v6 {
      PtrLine(ip, zoneName, host, i3, host.ipv6);
    }
    InventoryStep(ip, zoneName, l2 + (if host.ptr && v4 then [p4] else []), i3, host.ptr && v6, p6, i4);
    assert lines + HostKV(zoneName)(host) == l2 + (if host.ptr && v4 then [p4] else []) +
      (if host.ptr && v6 then [p6] else []);
  }

  function HostnameOf(host: LocalHost): string { host.hostname }

  /** The inventory lists exactly these hosts, in this order. */
  ghost predicate Lists(inv: Inventory, hosts: seq<LocalHost>) {
    inv.order == Map(hosts, HostnameOf) && (forall name | name in inv.hosts :: name in inv.order) &&
    forall i | 0 <= i < |hosts| :: hosts[i].hostname in inv.hosts && inv.hosts[hosts[i].hostname] == hosts[i]
  }

  lemma ListsOneMore(inv: Inventory, hosts: seq<LocalHost>, host: LocalHost)
    requires DistinctHostnames(hosts + [host]) && Lists(inv, hosts)
    ensures host.hostname !in inv.hosts && Lists(WithHost(inv, host), hosts + [host])
  {
    var all := hosts + [host];
    forall i | 0 <= i < |hosts| ensures hosts[i].hostname != host.hostname {
      assert all[i] == hosts[i] && all[|hosts|] == host;
    }
    assert host.hostname !in Map(hosts, HostnameOf);
    assert Map(all, HostnameOf) == Map(hosts, HostnameOf) + [host.hostname];
  }

  lemma FewerHosts(ip: Netip, hosts: seq<LocalHost>, host: LocalHost)
    requires GoodHosts(ip, hosts + [host])
    ensures GoodHosts(ip, hosts) && GoodLocalHost(ip, host) && DistinctHostnames(hosts + [host])
  {
    hide GoodLocalHost;
    var all := hosts + [host];
    assert all[|hosts|] == host && all[..|hosts|] == hosts;
    forall i | 0 <= i < |hosts| ensures GoodLocalHost(ip, hosts[i]) {
      assert all[i] == hosts[i];
    }
  }

  lemma {:induction false} ZoneInventory(ip: Netip, zoneName: string, hosts: seq<LocalHost>) returns (inv: Inventory)
    requires ValidZoneName(zoneName) && GoodHosts(ip, hosts)
    ensures InventoryOf(ip, zoneName, Flat(hosts, HostKV(zoneName))) == Some(inv) && Lists(inv, hosts)
  {
    hide *;
    FlatEnds(hosts, HostKV(zoneName));
    if hosts == [] {
      EmptyInventory(ip, zoneName);
      inv := Inventory([], map[]);
    } else {
      var before, host := hosts[..|hosts| - 1], hosts[|hosts| - 1];
      assert before + [host] == hosts;
      FewerHosts(ip, before, host);
      inv := ZoneInventory(ip, zoneName, before);
      ListsOneMore(inv, before, host);
      HostInventory(ip, zoneName, host, Flat(before, HostKV(zoneName)), inv);
      inv := WithHost(inv, host);
    }
  }

  lemma EmptyInventory(ip: Netip, zoneName: string)
    ensures InventoryOf(ip, zoneName, []) == Some(Inventory([], map[])) && Lists(Inventory([], map[]), [])
  {
  }

  lemma BuildsZone(ip: Netip, zone: LocalZone)
    requires GoodLocal(ip, zone)
    ensures BuildLocalZone(ip, zone.name, Flat(zone.hosts, HostKV(zone.name))) == Some(zone)
  {
    hide ValidZoneName, GoodHosts, HostKV, InventoryOf;
    var lines := Flat(zone.hosts, HostKV(zone.name));
    var inv := ZoneInventory(ip, zone.name, zone.hosts);
    InventoryOrdered(ip, zone.name, lines);
    assert InventoryHosts(inv) == zone.hosts;
  }

  // ---------- one zone, and all of them ----------

  ghost predicate AllData(kvs: seq<KV>) { forall k | 0 <= k < |kvs| :: IsData(kvs[k]) }

  lemma StopAtEnd(header: KV, data: seq<KV>)
    requires AllData(data)
    ensures StopAfter([header] + data, 0) == 1 + |data|
  {
    hide IsData;
    var kvs := [header] + data;
    forall k | 1 <= k < |kvs| ensures IsData(kvs[k]) {
      assert kvs[k] == data[k - 1];
    }
  }

  lemma DataOfHosts(zoneName: string, hosts: seq<LocalHost>)
    ensures AllData(Flat(hosts, HostKV(zoneName)))
  {
    hide HostKV, IsData;
    if hosts != [] {
      DataOfHosts(zoneName, hosts[..|hosts| - 1]);
      HostClass(zoneName, hosts[|hosts| - 1]);
    }
  }

  lemma ZoneOfLocal(ip: Netip, zone: LocalZone)
    requires GoodLocal(ip, zone)
    ensures ZoneOfGroup(ip, KV("local-zone", ZoneValue(zone.name, "static")), Flat(zone.hosts, HostKV(zone.name))) ==
            if IsReservedReverseName(zone.name) then None else Some(zone)
  {
    hide ValidZoneName, GoodHosts, HostKV, BuildLocalZone, ZoneValue, NetworkOf, ParseLocalZoneValue, Flat, PlainName;
    ZoneNameChars(zone.name);
    NameCharsArePlain(zone.name);
    ParseZoneValue(zone.name, "static");
    BuildsZone(ip, zone);
  }

  lemma ZoneHeader(zone: LocalZone)
    ensures LocalKV(zone) == [KV("local-zone", ZoneValue(zone.name, "static"))] + Flat(zone.hosts, HostKV(zone.name))
    ensures Breaks(LocalKV(zone)) && LocalKV(zone) != []
  {
    hide Flat, HostKV, ZoneValue;
  }

  lemma GroupIs(ip: Netip, header: KV, data: seq<KV>)
    requires header.key == "local-zone" && StopAfter([header] + data, 0) == 1 + |data|
    ensures GroupAt(ip, [header] + data, 0) == ZoneOfGroup(ip, header, data)
  {
    hide ZoneOfGroup, StopAfter;
    assert ([header] + data)[0 + 1..1 + |data|] == data;
  }

  /** The first directive opens a group of the whole sequence, which maps to that zone, if any. */
  ghost predicate IsWholeGroup(ip: Netip, kvs: seq<KV>, zone: Option<LocalZone>) {
    kvs != [] && StopAfter(kvs, 0) == |kvs| && GroupAt(ip, kvs, 0) == zone
  }

  lemma LocalGroup(ip: Netip, zone: LocalZone)
    requires GoodLocal(ip, zone)
    ensures IsWholeGroup(ip, LocalKV(zone), if IsReservedReverseName(zone.name) then None else Some(zone))
  {
    hide AllOf, GoodLocal, HostKV, ZoneOfGroup, ZoneValue, IsReservedReverseName, Flat, StopAfter, IsData, LocalKV,
      AllData, Breaks, GroupAt;
    var data := Flat(zone.hosts, HostKV(zone.name));
    var header := KV("local-zone", ZoneValue(zone.name, "static"));
    ZoneHeader(zone);
    DataOfHosts(zone.name, zone.hosts);
    StopAtEnd(header, data);
    GroupIs(ip, header, data);
    ZoneOfLocal(ip, zone);
  }

  /** A group that spans the whole sequence gives one zone, and owns every line. */
  lemma WholeGroup(ip: Netip, kvs: seq<KV>, zone: LocalZone)
    requires IsWholeGroup(ip, kvs, Some(zone))
    ensures HasGroups(ip, kvs, [zone], 0)
  {
    hide GroupAt, IsData, InGroup;
    ZonesUpToSkips(ip, kvs, 1, |kvs|);
    assert ZonesUpTo(ip, kvs, 1) == ZonesUpTo(ip, kvs, 0) + [zone];
    forall k: nat | k < |kvs| ensures InGroup(ip, kvs, k) {
      InFirstGroup(ip, kvs, k);
    }
  }

  lemma InFirstGroup(ip: Netip, kvs: seq<KV>, k: nat)
    requires k < |kvs| && GroupAt(ip, kvs, 0).Some? && k < StopAfter(kvs, 0)
    ensures InGroup(ip, kvs, k)
  {
    hide GroupAt, StopAfter;
  }

  ghost predicate GoodLocals(ip: Netip, zones: seq<LocalZone>) {
    forall i | 0 <= i < |zones| :: GoodLocal(ip, zones[i]) && !IsReservedReverseName(zones[i].name)
  }

  lemma FewerLocals(ip: Netip, zones: seq<LocalZone>, zone: LocalZone)
    requires GoodLocals(ip, zones + [zone])
    ensures GoodLocals(ip, zones) && GoodLocal(ip, zone) && !IsReservedReverseName(zone.name)
  {
    hide GoodLocal, IsReservedReverseName;
    var all := zones + [zone];
    assert all[|zones|] == zone;
    forall i | 0 <= i < |zones| ensures GoodLocal(ip, zones[i]) && !IsReservedReverseName(zones[i].name) {
      assert all[i] == zones[i];
    }
  }

  /** The groups of the sequence are exactly these zones, and own every directive from `start` on. */
  ghost predicate HasGroups(ip: Netip, kvs: seq<KV>, zones: seq<LocalZone>, start: nat) {
    ZonesUpTo(ip, kvs, |kvs|) == zones && forall k: nat | start <= k < |kvs| :: InGroup(ip, kvs, k)
  }

  lemma GroupsOfConcat(ip: Netip, a: seq<KV>, b: seq<KV>, zones: seq<LocalZone>, zone: LocalZone, start: nat)
    requires HasGroups(ip, a, zones, start) && HasGroups(ip, b, [zone], 0) && b != [] && Breaks(b) && start <= |a|
    ensures HasGroups(ip, a + b, zones + [zone], start)
  {
    hide GroupAt, Breaks, InGroup, ZonesUpTo;
    ZonesOfConcat(ip, a, b, |a| + |b|);
    forall k: nat | start <= k < |a + b| ensures InGroup(ip, a + b, k) {
      if k < |a| {
        InGroupOfConcat(ip, a, b, k);
      } else {
        InGroupOfConcat(ip, a, b, k - |a|);
      }
    }
  }

  lemma NoGroups(ip: Netip, kvs: seq<KV>)
    requires ZonesUpTo(ip, kvs, |kvs|) == []
    ensures HasGroups(ip, kvs, [], |kvs|)
  {
    hide GroupAt, InGroup;
  }

  /** Reading a prefix without groups, then the zones' lines, finds the zones; every line of them is consumed. */
  lemma {:induction false} AllZones(ip: Netip, prefix: seq<KV>, zones: seq<LocalZone>)
    requires ZonesUpTo(ip, prefix, |prefix|) == [] && GoodLocals(ip, zones)
    ensures HasGroups(ip, prefix + Flat(zones, LocalKV), zones, |prefix|)
  {
    hide *;
    FlatEnds(zones, LocalKV);
    if zones == [] {
      NoGroups(ip, prefix);
      assert prefix + [] == prefix;
    } else {
      var before, zone := zones[..|zones| - 1], zones[|zones| - 1];
      assert before + [zone] == zones;
      FewerLocals(ip, before, zone);
      AllZones(ip, prefix, before);
      LocalGroup(ip, zone);
      WholeGroup(ip, LocalKV(zone), zone);
      ZoneHeader(zone);
      GroupsOfConcat(ip, prefix + Flat(before, LocalKV), LocalKV(zone), before, zone, |prefix|);
      Associative(prefix, Flat(before, LocalKV), LocalKV(zone));
    }
  }

  /** No directive opens a group: each is a reverse-zone line or no zone line at all. */
  ghost predicate OpensNone(ip: Netip, kvs: seq<KV>) {
    forall i | 0 <= i < |kvs| && kvs[i].key == "local-zone" ::
      ParseLocalZoneValue(kvs[i].value).Some? && IsReservedReverseName(ParseLocalZoneValue(kvs[i].value).value.name)
  }

  lemma {:induction false} NoZonesFrom(ip: Netip, kvs: seq<KV>, n: nat)
    requires OpensNone(ip, kvs) && n <= |kvs|
    ensures ZonesUpTo(ip, kvs, n) == []
  {
    hide ParseLocalZoneValue, ValidZoneName, BuildLocalZone, NetworkOf;
    if n > 0 {
      NoZonesFrom(ip, kvs, n - 1);
    }
  }
}
