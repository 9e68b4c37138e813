/**
  What a group of local-zone lines that maps to a guided zone says (import.go:398-489): the zone holds exactly the
  addresses and PTR records of the lines, no line is lost, and each part of it is valid on its own.
 */
module UnboundLocalGroups {
  import opened Text
  import opened Seqs
  import opened UnboundSettings
  import opened UnboundParse
  import opened UnboundExtract

  /** The line is `host.zone IN A address`, or `IN AAAA`. */
  predicate SaysAddress(line: KV, zone: string, hostname: string, v4: bool, address: string) {
    var f := Fields(line.value);
    line.key == "local-data" && |f| == 4 && f[0] == hostname + "." + zone && ToLower(f[1]) == "in" &&
    ToLower(f[2]) == (if v4 then "a" else "aaaa") && f[3] == address
  }

  /** The line is `address host.zone`, whether or not the name ends in a dot. */
  predicate SaysPtr(line: KV, zone: string, hostname: string, address: string) {
    var f := Fields(line.value);
    line.key == "local-data-ptr" && |f| == 2 && f[0] == address &&
    TrimSuffix(f[1], ".") == hostname + "." + TrimSuffix(zone, ".")
  }

  function AddressOf(host: LocalHost, v4: bool): string { if v4 then host.ipv4 else host.ipv6 }

  /** Line `k` is in the inventory: an address of a host, or the PTR record of a host's address. */
  ghost predicate Kept(hosts: map<string, LocalHost>, zone: string, line: KV) {
    exists h | h in hosts ::
      SaysAddress(line, zone, h, true, hosts[h].ipv4) || SaysAddress(line, zone, h, false, hosts[h].ipv6) ||
      (hosts[h].ptr && (SaysPtr(line, zone, h, hosts[h].ipv4) || SaysPtr(line, zone, h, hosts[h].ipv6)))
  }

  ghost predicate AddressSaid(lines: seq<KV>, zone: string, hostname: string, v4: bool, address: string) {
    exists k | 0 <= k < |lines| :: SaysAddress(lines[k], zone, hostname, v4, address)
  }

  ghost predicate PtrSaid(lines: seq<KV>, zone: string, host: LocalHost) {
    exists k | 0 <= k < |lines| ::
      SaysPtr(lines[k], zone, host.hostname, host.ipv4) || SaysPtr(lines[k], zone, host.hostname, host.ipv6)
  }

  /** A host of the inventory comes from the lines and is valid. */
  ghost predicate FromLines(ip: Netip, zone: string, lines: seq<KV>, host: LocalHost) {
    ValidHostLabel(host.hostname) && (host.ipv4 != "" || host.ipv6 != "") &&
    (host.ipv4 != "" ==>
       ValidLocalAddress(ip, host.ipv4, true) && AddressSaid(lines, zone, host.hostname, true, host.ipv4)) &&
    (host.ipv6 != "" ==>
       ValidLocalAddress(ip, host.ipv6, false) && AddressSaid(lines, zone, host.hostname, false, host.ipv6)) &&
    (host.ptr ==> PtrSaid(lines, zone, host))
  }

  ghost predicate Inventoried(ip: Netip, zone: string, lines: seq<KV>, inv: Inventory) {
    (forall i, j | 0 <= i < j < |inv.order| :: inv.order[i] != inv.order[j]) &&
    (forall h :: h in inv.order <==> h in inv.hosts) &&
    (forall h | h in inv.hosts :: inv.hosts[h].hostname == h && FromLines(ip, zone, lines, inv.hosts[h])) &&
    (forall k | 0 <= k < |lines| :: Kept(inv.hosts, zone, lines[k]))
  }

  lemma {:induction false} FieldsAreTokens(s: string)
    ensures forall i | 0 <= i < |Fields(s)| :: Fields(s)[i] != ""
    decreases |s|
  {
    var t := TrimLeft(s);
    var front := TrimLeftSplits(s);
    if t != [] {
      var n := WordLength(t);
      FieldsAreTokens(t[n..]);
    }
  }

  lemma SuffixSplits(s: string, p: string)
    requires HasSuffix(s, p)
    ensures s == TrimSuffix(s, p) + p
  {
  }

  /** More lines keep what was said. */
  lemma SaidStays(ip: Netip, zone: string, lines: seq<KV>, line: KV, host: LocalHost)
    requires FromLines(ip, zone, lines, host)
    ensures FromLines(ip, zone, lines + [line], host)
  {
    hide SaysAddress, SaysPtr, ValidLocalAddress, ValidHostLabel;
    var more := lines + [line];
    assert forall k | 0 <= k < |lines| :: more[k] == lines[k];
  }

  lemma KeptStays(old': map<string, LocalHost>, hosts: map<string, LocalHost>, zone: string, line: KV)
    requires Kept(old', zone, line)
    requires forall h | h in old' :: h in hosts && (old'[h].ptr ==> hosts[h].ptr) &&
                                     (old'[h].ipv4 != "" ==> hosts[h].ipv4 == old'[h].ipv4) &&
                                     (old'[h].ipv6 != "" ==> hosts[h].ipv6 == old'[h].ipv6)
    ensures Kept(hosts, zone, line)
  {
    FieldsAreTokens(line.value);
    hide Fields, ToLower, TrimSuffix;
  }

  lemma AddAddress(ip: Netip, zone: string, lines: seq<KV>, inv: Inventory, line: KV, h: string, v4: bool,
                   address: string, inv': Inventory)
    requires Inventoried(ip, zone, lines, inv) && SaysAddress(line, zone, h, v4, address)
    requires ValidHostLabel(h) && ValidLocalAddress(ip, address, v4) && address != ""
    requires h in inv.hosts ==> AddressOf(inv.hosts[h], v4) == ""
    requires inv'.order == if h in inv.hosts then inv.order else inv.order + [h]
    requires var host := if h in inv.hosts then inv.hosts[h] else LocalHost(h, "", "", false);
             inv'.hosts == inv.hosts[h := if v4 then host.(ipv4 := address) else host.(ipv6 := address)]
    ensures Inventoried(ip, zone, lines + [line], inv')
  {
    hide SaysAddress, SaysPtr, ValidLocalAddress, ValidHostLabel, FromLines, Kept;
    var more := lines + [line];
    var n := |lines|;
    assert more[n] == line && forall k | 0 <= k < n :: more[k] == lines[k];
    forall g | g in inv'.hosts ensures inv'.hosts[g].hostname == g && FromLines(ip, zone, more, inv'.hosts[g]) {
      if g != h {
        SaidStays(ip, zone, lines, line, inv.hosts[g]);
      } else if h in inv.hosts {
        SaidStays(ip, zone, lines, line, inv.hosts[h]);
        AddressIsFromLines(ip, zone, more, inv.hosts[h], inv'.hosts[h], n, v4, address);
      } else {
        NewIsFromLines(ip, zone, more, inv'.hosts[h], n, v4, address);
      }
    }
    forall k | 0 <= k < |more| ensures Kept(inv'.hosts, zone, more[k]) {
      if k < n {
        KeptStays(inv.hosts, inv'.hosts, zone, lines[k]);
      } else {
        NewIsKept(inv'.hosts, zone, line, h, v4);
      }
    }
  }

  lemma NewIsKept(hosts: map<string, LocalHost>, zone: string, line: KV, h: string, v4: bool)
    requires h in hosts && SaysAddress(line, zone, h, v4, AddressOf(hosts[h], v4))
    ensures Kept(hosts, zone, line)
  {
    hide SaysAddress, SaysPtr;
  }

  lemma NewIsFromLines(ip: Netip, zone: string, lines: seq<KV>, host: LocalHost, k: nat, v4: bool, address: string)
    requires k < |lines| && SaysAddress(lines[k], zone, host.hostname, v4, address)
    requires ValidHostLabel(host.hostname) && ValidLocalAddress(ip, address, v4) && address != ""
    requires host == if v4 then LocalHost(host.hostname, address, "", false)
                     else LocalHost(host.hostname, "", address, false)
    ensures FromLines(ip, zone, lines, host)
  {
    hide SaysAddress, SaysPtr, ValidLocalAddress, ValidHostLabel;
  }

  lemma AddressIsFromLines(ip: Netip, zone: string, lines: seq<KV>, host: LocalHost, host': LocalHost, k: nat, v4: bool,
                           address: string)
    requires FromLines(ip, zone, lines, host) && AddressOf(host, v4) == "" && address != ""
    requires k < |lines| && SaysAddress(lines[k], zone, host.hostname, v4, address)
    requires ValidLocalAddress(ip, address, v4)
    requires host' == if v4 then host.(ipv4 := address) else host.(ipv6 := address)
    ensures FromLines(ip, zone, lines, host')
  {
    hide ToLower, TrimSuffix, ValidLocalAddress, ValidHostLabel, Fields;
    if host.ptr {
      var i :| 0 <= i < |lines| && (SaysPtr(lines[i], zone, host.hostname, host.ipv4) ||
                                    SaysPtr(lines[i], zone, host.hostname, host.ipv6));
      FieldsAreTokens(lines[i].value);
    }
  }

  lemma AddPtrRecord(ip: Netip, zone: string, lines: seq<KV>, inv: Inventory, line: KV, h: string, inv': Inventory)
    requires Inventoried(ip, zone, lines, inv) && h in inv.hosts
    requires SaysPtr(line, zone, h, inv.hosts[h].ipv4) || SaysPtr(line, zone, h, inv.hosts[h].ipv6)
    requires inv' == inv.(hosts := inv.hosts[h := inv.hosts[h].(ptr := true)])
    ensures Inventoried(ip, zone, lines + [line], inv')
  {
    hide SaysAddress, SaysPtr, ValidLocalAddress, ValidHostLabel, FromLines, Kept;
    var more := lines + [line];
    var n := |lines|;
    assert more[n] == line && forall k | 0 <= k < n :: more[k] == lines[k];
    forall g | g in inv'.hosts ensures inv'.hosts[g].hostname == g && FromLines(ip, zone, more, inv'.hosts[g]) {
      SaidStays(ip, zone, lines, line, inv.hosts[g]);
      if g == h {
        PtrIsFromLines(ip, zone, more, inv.hosts[h], n);
      }
    }
    forall k | 0 <= k < |more| ensures Kept(inv'.hosts, zone, more[k]) {
      if k < n {
        KeptStays(inv.hosts, inv'.hosts, zone, lines[k]);
      } else {
        PtrIsKept(inv'.hosts, zone, line, h);
      }
    }
  }

  lemma PtrIsKept(hosts: map<string, LocalHost>, zone: string, line: KV, h: string)
    requires h in hosts && hosts[h].ptr
    requires SaysPtr(line, zone, h, hosts[h].ipv4) || SaysPtr(line, zone, h, hosts[h].ipv6)
    ensures Kept(hosts, zone, line)
  {
    hide SaysAddress, SaysPtr;
  }

  lemma PtrIsFromLines(ip: Netip, zone: string, lines: seq<KV>, host: LocalHost, k: nat)
    requires FromLines(ip, zone, lines, host) && k < |lines|
    requires SaysPtr(lines[k], zone, host.hostname, host.ipv4) || SaysPtr(lines[k], zone, host.hostname, host.ipv6)
    ensures FromLines(ip, zone, lines, host.(ptr := true))
  {
    hide SaysAddress, SaysPtr, ValidLocalAddress, ValidHostLabel;
    assert PtrSaid(lines, zone, host.(ptr := true));
  }

  /** What an accepted data line says, and what it does to the inventory. */
  lemma DataParts(ip: Netip, zone: string, inv: Inventory, line: KV) returns (h: string, v4: bool, address: string)
    requires line.key == "local-data" && AddData(ip, zone, inv, line.value).Some?
    requires forall g | g in inv.hosts :: inv.hosts[g].hostname == g
    ensures SaysAddress(line, zone, h, v4, address) && ValidHostLabel(h) && ValidLocalAddress(ip, address, v4)
    ensures address != "" && (h in inv.hosts ==> AddressOf(inv.hosts[h], v4) == "")
    ensures var inv' := AddData(ip, zone, inv, line.value).value;
            var host := if h in inv.hosts then inv.hosts[h] else LocalHost(h, "", "", false);
            inv'.order == (if h in inv.hosts then inv.order else inv.order + [h]) &&
            inv'.hosts == inv.hosts[h := if v4 then host.(ipv4 := address) else host.(ipv6 := address)]
  {
    FieldsAreTokens(line.value);
    var f := Fields(line.value);
    SuffixSplits(f[0], "." + zone);
    h, v4, address := TrimSuffix(f[0], "." + zone), ToLower(f[2]) == "a", f[3];
    hide Fields, ValidHostLabel, ValidLocalAddress, ToLower, TrimSuffix, HasSuffix;
    assert f[0] == h + "." + zone by { assert h + ("." + zone) == h + "." + zone; }
  }

  lemma DataLine(ip: Netip, zone: string, lines: seq<KV>, inv: Inventory, line: KV)
    requires Inventoried(ip, zone, lines, inv) && line.key == "local-data"
    requires AddData(ip, zone, inv, line.value).Some?
    ensures Inventoried(ip, zone, lines + [line], AddData(ip, zone, inv, line.value).value)
  {
    hide *;
    InventoryKeepsNames(ip, zone, lines, inv);
    var h, v4, address := DataParts(ip, zone, inv, line);
    AddAddress(ip, zone, lines, inv, line, h, v4, address, AddData(ip, zone, inv, line.value).value);
  }

  lemma InventoryKeepsNames(ip: Netip, zone: string, lines: seq<KV>, inv: Inventory)
    requires Inventoried(ip, zone, lines, inv)
    ensures forall h | h in inv.hosts :: inv.hosts[h].hostname == h
  {
  }

  lemma PtrLine(ip: Netip, zone: string, lines: seq<KV>, inv: Inventory, line: KV)
    requires Inventoried(ip, zone, lines, inv) && line.key == "local-data-ptr"
    requires AddPtr(zone, inv, line.value).Some?
    ensures Inventoried(ip, zone, lines + [line], AddPtr(zone, inv, line.value).value)
  {
    hide Inventoried, Fields, ValidHostLabel, ValidLocalAddress, ToLower;
    var f := Fields(line.value);
    var suffix := "." + TrimSuffix(zone, ".");
    var target := TrimSuffix(f[1], ".");
    SuffixSplits(target, suffix);
    var h := TrimSuffix(target, suffix);
    assert target == h + "." + TrimSuffix(zone, ".") by {
      assert h + suffix == h + "." + TrimSuffix(zone, ".");
    }
    hide TrimSuffix, HasSuffix;
    AddPtrRecord(ip, zone, lines, inv, line, h, AddPtr(zone, inv, line.value).value);
  }

  lemma NothingInventoried(ip: Netip, zone: string)
    ensures Inventoried(ip, zone, [], Inventory([], map[]))
  {
  }

  lemma {:induction false} LinesInventoried(ip: Netip, zone: string, lines: seq<KV>)
    requires InventoryOf(ip, zone, lines).Some? && forall k | 0 <= k < |lines| :: IsData(lines[k])
    ensures Inventoried(ip, zone, lines, InventoryOf(ip, zone, lines).value)
  {
    hide Inventoried, AddData, AddPtr;
    if lines == [] {
      NothingInventoried(ip, zone);
    } else {
      var n := |lines| - 1;
      assert lines == lines[..n] + [lines[n]];
      LinesInventoried(ip, zone, lines[..n]);
      var inv := InventoryOf(ip, zone, lines[..n]).value;
      if lines[n].key == "local-data" {
        DataLine(ip, zone, lines[..n], inv, lines[n]);
      } else {
        PtrLine(ip, zone, lines[..n], inv, lines[n]);
      }
    }
  }

  /** The line is one of the zone's records. */
  ghost predicate IsRecord(zone: LocalZone, line: KV) {
    exists i | 0 <= i < |zone.hosts| ::
      var host := zone.hosts[i];
      SaysAddress(line, zone.name, host.hostname, true, host.ipv4) ||
      SaysAddress(line, zone.name, host.hostname, false, host.ipv6) ||
      (host.ptr && (SaysPtr(line, zone.name, host.hostname, host.ipv4) ||
                    SaysPtr(line, zone.name, host.hostname, host.ipv6)))
  }

  /**
    A group that maps: the zone has a valid name that is not reserved, at least one host, each host once and from
    the group's lines, and every line of the group is one of its records.
   */
  lemma GroupIsZone(ip: Netip, kvs: seq<KV>, i: nat)
    requires i < |kvs| && GroupAt(ip, kvs, i).Some?
    ensures var zone, lines := GroupAt(ip, kvs, i).value, kvs[i + 1..StopAfter(kvs, i)];
            ValidZoneName(zone.name) && !IsReservedReverseName(zone.name) && zone.hosts != [] &&
            (forall j, k | 0 <= j < k < |zone.hosts| :: zone.hosts[j].hostname != zone.hosts[k].hostname) &&
            (forall k | 0 <= k < |zone.hosts| :: FromLines(ip, zone.name, lines, zone.hosts[k])) &&
            (forall k | 0 <= k < |lines| :: IsRecord(zone, lines[k]))
  {
    hide ValidZoneName, IsReservedReverseName, FromLines, SaysAddress, SaysPtr, ParseLocalZoneValue;
    var zone, lines := GroupAt(ip, kvs, i).value, kvs[i + 1..StopAfter(kvs, i)];
    LinesInventoried(ip, zone.name, lines);
    var inv := InventoryOf(ip, zone.name, lines).value;
    forall k | 0 <= k < |zone.hosts|
      ensures zone.hosts[k] == inv.hosts[inv.order[k]] && zone.hosts[k].hostname == inv.order[k]
    {
      assert inv.order[k] in inv.order;
    }
    forall k | 0 <= k < |lines| ensures IsRecord(zone, lines[k]) {
      assert Kept(inv.hosts, zone.name, lines[k]);
      RecordOfHost(zone, inv, lines[k]);
    }
  }

  lemma RecordOfHost(zone: LocalZone, inv: Inventory, line: KV)
    requires Kept(inv.hosts, zone.name, line) && (forall h | h in inv.hosts :: h in inv.order)
    requires |zone.hosts| == |inv.order| && forall k | 0 <= k < |zone.hosts| ::
               inv.order[k] in inv.hosts && zone.hosts[k] == inv.hosts[inv.order[k]] &&
               zone.hosts[k].hostname == inv.order[k]
    ensures IsRecord(zone, line)
  {
    hide SaysAddress, SaysPtr;
    var h :| h in inv.hosts &&
      (SaysAddress(line, zone.name, h, true, inv.hosts[h].ipv4) ||
       SaysAddress(line, zone.name, h, false, inv.hosts[h].ipv6) ||
       (inv.hosts[h].ptr && (SaysPtr(line, zone.name, h, inv.hosts[h].ipv4) ||
                             SaysPtr(line, zone.name, h, inv.hosts[h].ipv6))));
    var k :| 0 <= k < |inv.order| && inv.order[k] == h;
    assert zone.hosts[k] == inv.hosts[h];
  }

  /** A forward clause that maps: a valid name, at least one server, and each server valid. */
  lemma ClauseIsZone(ip: Netip, block: ParsedBlock)
    requires MappedZone(ip, block).Some?
    ensures var zone := MappedZone(ip, block).value;
            block.section == "forward-zone" && ValidZoneName(zone.name) && zone.servers != [] &&
            forall k | 0 <= k < |zone.servers| :: ValidServer(ip, zone.servers[k])
  {
    hide DraftOf, ValidZoneName, ValidServer;
  }
}
