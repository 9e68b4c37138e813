/**
  The guided Unbound settings: the record and its validators (settings.go:154-406). The `Valid...`
  predicates are the specifications; the methods run the source's loops and are proved to decide exactly them.
 */
module UnboundSettings {
  import opened Text
  import opened Seqs

  const MAX_FORWARD_ZONES := 32
  const MAX_FORWARD_SERVERS := 8
  const MAX_FORWARD_TARGETS := 32
  const MAX_PRIVATE_DOMAINS := 32
  const MAX_LOCAL_ZONES := 16
  const MAX_LOCAL_HOSTS_PER_ZONE := 128
  const MAX_LOCAL_HOSTS_TOTAL := 512

  const NXDOMAIN := "nxdomain"
  const TRANSPARENT := "transparent"
  const IPV4_MODE := "ipv4"
  const DUAL_MODE := "dual"
  const IPV6_MODE := "ipv6"

  const NETWORK_10 := "10.0.0.0/8"
  const NETWORK_172 := "172.16.0.0/12"
  const NETWORK_192 := "192.168.0.0/16"
  const NETWORKS: seq<string> := [NETWORK_10, NETWORK_172, NETWORK_192]

  /**
    What the code asks of `net/netip`, whose parser is not part of this model. `canonical(v)` says
    that `v` parses and prints back as itself; the other predicates speak of the parsed address.
   */
  datatype Netip = Netip(
    canonical: string -> bool,
    is4: string -> bool,
    is4In6: string -> bool,
    reservedForward: string -> bool,
    unusableHost: string -> bool
  )

  datatype ForwardZone = ForwardZone(
    name: string, servers: seq<string>, forwardFirst: bool, allowUnsigned: bool, allowPrivateAddresses: bool)

  datatype ReverseZonePolicy = ReverseZonePolicy(network: string, mode: string)

  datatype LocalHost = LocalHost(hostname: string, ipv4: string, ipv6: string, ptr: bool)

  datatype LocalZone = LocalZone(name: string, hosts: seq<LocalHost>)

  datatype Settings = Settings(
    qnameMinimisation: bool,
    prefetch: bool,
    prefetchKey: bool,
    aggressiveNsec: bool,
    ednsBufferSize: int,
    logVerbosity: int,
    serveExpired: bool,
    serveExpiredTtl: int,
    serveExpiredClientTimeout: int,
    cacheMinTtl: int,
    cacheMaxTtl: int,
    threads: int,
    resourceProfile: string,
    networkMode: string,
    forwardZones: seq<ForwardZone>,
    privateDomains: seq<string>,
    reverseZones: seq<ReverseZonePolicy>,
    localZones: seq<LocalZone>
  )

  datatype CacheSizes = CacheSizes(rrset: string, message: string)

  /** The preset cache sizes of a resource profile. */
  function ProfileSizes(profile: string): Option<CacheSizes> {
    if profile == "small" then Some(CacheSizes("32m", "16m"))
    else if profile == "medium" then Some(CacheSizes("64m", "32m"))
    else if profile == "large" then Some(CacheSizes("128m", "64m"))
    else None
  }

  // ---------- names ----------

  predicate IsLabelChar(c: char) { IsLowerAlnum(c) || c == '-' }

  predicate ValidHostLabel(part: string) {
    0 < |part| <= 63 &&
    IsLowerAlnum(part[0]) && IsLowerAlnum(part[|part| - 1]) &&
    forall i | 1 <= i < |part| - 1 :: IsLabelChar(part[i])
  }

  predicate ValidZoneName(name: string) {
    name != "." &&
    2 <= |name| <= 254 && HasSuffix(name, ".") && name == ToLower(name) && TrimSpace(name) == name &&
    forall part | part in SplitOn(TrimSuffix(name, "."), '.') :: ValidHostLabel(part)
  }

  predicate IsNameChar(c: char) { IsLabelChar(c) || c == '.' }

  const SUFFIX_172 := ".172.in-addr.arpa."

  function Reverse172Name(i: nat): string { Itoa(16 + i) + SUFFIX_172 }

  /** The reverse-zone names of an RFC 1918 network, none for any other text. */
  function ReverseNames(network: string): seq<string> {
    if network == NETWORK_10 then ["10.in-addr.arpa."]
    else if network == NETWORK_172 then seq(16, i requires 0 <= i < 16 => Reverse172Name(i))
    else if network == NETWORK_192 then ["168.192.in-addr.arpa."]
    else []
  }

  lemma Reverse172Names(i: nat)
    requires i < 16
    ensures |Reverse172Name(i)| == 20 && forall c | c in Reverse172Name(i) :: IsNameChar(c)
    ensures forall j: nat | j < i :: Reverse172Name(j) != Reverse172Name(i)
  {
    var n := Itoa(16 + i);
    assert n == ItoaNat((16 + i) / 10) + [DIGITS[(16 + i) % 10]];
    assert forall c | c in SUFFIX_172 :: IsNameChar(c);
    forall j: nat | j < i ensures Reverse172Name(j) != Reverse172Name(i) {
      DigitsOfItoa(16 + i);
      DigitsOfItoa(16 + j);
      var m := Itoa(16 + j);
      assert m == ItoaNat((16 + j) / 10) + [DIGITS[(16 + j) % 10]];
      assert Reverse172Name(i)[..2] == n && Reverse172Name(j)[..2] == m;
    }
  }

  /** Reserved names are distinct, and each belongs to one network only. */
  lemma ReverseNamesApart(n1: string, n2: string, i: nat, j: nat)
    requires i < |ReverseNames(n1)| && j < |ReverseNames(n2)|
    ensures n1 in NETWORKS && ReverseNames(n1)[i] != ""
    ensures forall c | c in ReverseNames(n1)[i] :: IsNameChar(c)
    ensures ReverseNames(n1)[i] == ReverseNames(n2)[j] ==> n1 == n2 && i == j
  {
    ReverseNameShape(n1, i);
    ReverseNameShape(n2, j);
  }

  lemma ReverseNameShape(network: string, i: nat)
    requires i < |ReverseNames(network)|
    ensures network in NETWORKS
    ensures |ReverseNames(network)[i]| ==
            if network == NETWORK_10 then 16 else if network == NETWORK_172 then 20 else 21
    ensures forall c | c in ReverseNames(network)[i] :: IsNameChar(c)
    ensures forall j: nat | j < i :: ReverseNames(network)[j] != ReverseNames(network)[i]
  {
    assert NETWORKS[0] == NETWORK_10 && NETWORKS[1] == NETWORK_172 && NETWORKS[2] == NETWORK_192;
    if network == NETWORK_172 {
      Reverse172Names(i);
      assert ReverseNames(network)[i] == Reverse172Name(i);
    } else if network == NETWORK_10 {
      assert ReverseNames(network)[0] == "10.in-addr.arpa.";
    } else {
      assert ReverseNames(network)[0] == "168.192.in-addr.arpa.";
    }
  }

  /** The RFC 1918 network a reserved reverse-zone name belongs to. */
  function NetworkOf(name: string): Option<string> {
    if name in ReverseNames(NETWORK_10) then Some(NETWORK_10)
    else if name in ReverseNames(NETWORK_172) then Some(NETWORK_172)
    else if name in ReverseNames(NETWORK_192) then Some(NETWORK_192)
    else None
  }

  predicate IsReservedReverseName(name: string) { NetworkOf(name).Some? }

  lemma NetworkOfName(network: string, i: nat)
    requires i < |ReverseNames(network)|
    ensures NetworkOf(ReverseNames(network)[i]) == Some(network)
  {
    hide ReverseNames;
    var name := ReverseNames(network)[i];
    ReverseNamesApart(network, network, i, i);
    forall n, j: nat | j < |ReverseNames(n)| && ReverseNames(n)[j] == name ensures n == network {
      ReverseNamesApart(network, n, i, j);
    }
  }

  lemma HostLabelChars(part: string)
    requires ValidHostLabel(part)
    ensures forall c | c in part :: IsLabelChar(c)
  {
  }

  lemma ZoneNameChars(name: string)
    requires ValidZoneName(name)
    ensures forall c | c in name :: IsNameChar(c)
    ensures |name| >= 2 && name == name[..|name| - 1] + "."
    ensures IsLowerAlnum(name[|name| - 2])
  {
    hide ToLower, TrimSpace, IsLabelChar, IsLowerAlnum;
    var body := TrimSuffix(name, ".");
    assert name == body + ".";
    forall c | c in name ensures IsNameChar(c) {
      if c != '.' {
        LabelChar(body, c);
      }
    }
    LastLabelEnd(body);
  }

  lemma LabelChar(body: string, c: char)
    requires c in body && c != '.' && forall part | part in SplitOn(body, '.') :: ValidHostLabel(part)
    ensures IsLabelChar(c)
  {
    SplitKeepsCharacters(body, '.', c);
    var part :| part in SplitOn(body, '.') && c in part;
    HostLabelChars(part);
  }

  lemma {:induction false} LastLabelEnd(body: string)
    requires body != [] && forall part | part in SplitOn(body, '.') :: ValidHostLabel(part)
    ensures IsLowerAlnum(body[|body| - 1])
  {
    var i := FirstIndex(body, '.');
    var parts := SplitOn(body, '.');
    if i == |body| {
      assert parts[0] in parts;
    } else {
      assert parts == [body[..i]] + SplitOn(body[i + 1..], '.');
      forall l | l in SplitOn(body[i + 1..], '.') ensures ValidHostLabel(l) { assert l in parts; }
      var first := SplitOn(body[i + 1..], '.')[0];
      assert ValidHostLabel(first);
      LastLabelEnd(body[i + 1..]);
    }
  }

  // ---------- forward zones ----------

  predicate ValidServer(ip: Netip, server: string) {
    ip.canonical(server) && !ip.reservedForward(server)
  }

  function TargetCount(zones: seq<ForwardZone>): nat {
    if zones == [] then 0 else TargetCount(zones[..|zones| - 1]) + |zones[|zones| - 1].servers|
  }

  ghost predicate ValidForwardZone(ip: Netip, zone: ForwardZone) {
    ValidZoneName(zone.name) && 1 <= |zone.servers| <= MAX_FORWARD_SERVERS &&
    (forall server | server in zone.servers :: ValidServer(ip, server)) && Distinct(zone.servers)
  }

  ghost predicate DistinctForwardNames(zones: seq<ForwardZone>) {
    forall i, j | 0 <= i < j < |zones| :: zones[i].name != zones[j].name
  }

  ghost predicate ValidForwardZones(ip: Netip, zones: seq<ForwardZone>) {
    |zones| <= MAX_FORWARD_ZONES && TargetCount(zones) <= MAX_FORWARD_TARGETS &&
    (forall i | 0 <= i < |zones| :: ValidForwardZone(ip, zones[i])) && DistinctForwardNames(zones)
  }

  lemma TargetCountMonotone(zones: seq<ForwardZone>, i: nat)
    requires i <= |zones|
    ensures TargetCount(zones[..i]) <= TargetCount(zones)
  {
    if i < |zones| {
      assert zones[..|zones| - 1][..i] == zones[..i];
      TargetCountMonotone(zones[..|zones| - 1], i);
    } else {
      assert zones[..i] == zones;
    }
  }

  method ValidateServers(ip: Netip, servers: seq<string>) returns (ok: bool)
    ensures ok <==> (forall server | server in servers :: ValidServer(ip, server)) && Distinct(servers)
  {
    var seen: set<string> := {};
    for i := 0 to |servers|
      invariant seen == set j | 0 <= j < i :: servers[j]
      invariant forall j | 0 <= j < i :: ValidServer(ip, servers[j])
      invariant Distinct(servers[..i])
    {
      if !ip.canonical(servers[i]) || ip.reservedForward(servers[i]) {
        assert servers[i] in servers && !ValidServer(ip, servers[i]);
        return false;
      }
      if servers[i] in seen {
        return false;
      }
      seen := seen + {servers[i]};
    }
    assert servers[..|servers|] == servers;
    return true;
  }

  method ValidateForwardZones(ip: Netip, zones: seq<ForwardZone>) returns (ok: bool)
    ensures ok <==> ValidForwardZones(ip, zones)
  {
    hide ValidZoneName;
    if |zones| > MAX_FORWARD_ZONES {
      return false;
    }
    var names: set<string> := {};
    var targets := 0;
    for i := 0 to |zones|
      invariant names == set j | 0 <= j < i :: zones[j].name
      invariant targets == TargetCount(zones[..i]) <= MAX_FORWARD_TARGETS
      invariant forall j | 0 <= j < i :: ValidForwardZone(ip, zones[j])
      invariant DistinctForwardNames(zones[..i])
    {
      var zone := zones[i];
      TargetCountMonotone(zones, i + 1);
      assert zones[..i + 1][..i] == zones[..i];
      if !ValidZoneName(zone.name) || zone.name in names {
        return false;
      }
      names := names + {zone.name};
      if |zone.servers| == 0 || |zone.servers| > MAX_FORWARD_SERVERS {
        return false;
      }
      targets := targets + |zone.servers|;
      if targets > MAX_FORWARD_TARGETS {
        return false;
      }
      var serversOk := ValidateServers(ip, zone.servers);
      if !serversOk {
        return false;
      }
    }
    assert zones[..|zones|] == zones;
    return true;
  }

  // ---------- private domains and reverse zones ----------

  /** Some forward zone of that name already carries the private-address exception. */
  predicate ClaimedByZone(d: string, zones: seq<ForwardZone>) {
    exists i | 0 <= i < |zones| :: zones[i].allowPrivateAddresses && zones[i].name == d
  }

  ghost predicate ValidPrivateDomains(domains: seq<string>, zones: seq<ForwardZone>) {
    |domains| <= MAX_PRIVATE_DOMAINS && Distinct(domains) &&
    forall i | 0 <= i < |domains| :: ValidZoneName(domains[i]) && !ClaimedByZone(domains[i], zones)
  }

  method ValidatePrivateDomains(domains: seq<string>, zones: seq<ForwardZone>) returns (ok: bool)
    ensures ok <==> ValidPrivateDomains(domains, zones)
  {
    hide ValidZoneName;
    if |domains| > MAX_PRIVATE_DOMAINS {
      return false;
    }
    var seen: set<string> := {};
    for i := 0 to |domains|
      invariant forall d :: d in seen <==> d in domains[..i]
      invariant Distinct(domains[..i])
      invariant forall j | 0 <= j < i :: ValidZoneName(domains[j]) && !ClaimedByZone(domains[j], zones)
    {
      if !ValidZoneName(domains[i]) || domains[i] in seen {
        return false;
      }
      seen := seen + {domains[i]};
      for k := 0 to |zones|
        invariant forall j | 0 <= j < k :: !(zones[j].allowPrivateAddresses && zones[j].name == domains[i])
      {
        if zones[k].allowPrivateAddresses && zones[k].name == domains[i] {
          assert ClaimedByZone(domains[i], zones);
          return false;
        }
      }
    }
    assert domains[..|domains|] == domains;
    return true;
  }

  predicate ValidPolicy(policy: ReverseZonePolicy) {
    policy.network in NETWORKS && policy.mode in [NXDOMAIN, TRANSPARENT]
  }

  ghost predicate DistinctNetworks(policies: seq<ReverseZonePolicy>) {
    forall i, j | 0 <= i < j < |policies| :: policies[i].network != policies[j].network
  }

  ghost predicate ValidReverseZones(policies: seq<ReverseZonePolicy>) {
    |policies| <= |NETWORKS| && (forall i | 0 <= i < |policies| :: ValidPolicy(policies[i])) &&
    DistinctNetworks(policies)
  }

  method ValidateReverseZones(policies: seq<ReverseZonePolicy>) returns (ok: bool)
    ensures ok <==> ValidReverseZones(policies)
  {
    if |policies| > |NETWORKS| {
      return false;
    }
    var seen: set<string> := {};
    for i := 0 to |policies|
      invariant seen == set j | 0 <= j < i :: policies[j].network
      invariant forall j | 0 <= j < i :: ValidPolicy(policies[j])
      invariant DistinctNetworks(policies[..i])
    {
      if !ValidPolicy(policies[i]) || policies[i].network in seen {
        return false;
      }
      seen := seen + {policies[i].network};
    }
    assert policies[..|policies|] == policies;
    return true;
  }

  // ---------- local zones ----------

  predicate ValidLocalAddress(ip: Netip, value: string, wantIPv4: bool) {
    ip.canonical(value) &&
    (if wantIPv4 then ip.is4(value) else !ip.is4(value) && !ip.is4In6(value)) &&
    !ip.unusableHost(value)
  }

  predicate ValidLocalHost(ip: Netip, host: LocalHost) {
    ValidHostLabel(host.hostname) && (host.ipv4 != "" || host.ipv6 != "") &&
    (host.ipv4 != "" ==> ValidLocalAddress(ip, host.ipv4, true)) &&
    (host.ipv6 != "" ==> ValidLocalAddress(ip, host.ipv6, false))
  }

  function ZoneHosts(zone: LocalZone): seq<LocalHost> { zone.hosts }

  function AllHosts(zones: seq<LocalZone>): seq<LocalHost> { Flat(zones, ZoneHosts) }

  /** The addresses a host claims for PTR records. */
  function PtrAddresses(host: LocalHost): seq<string> {
    if !host.ptr then []
    else (if host.ipv4 != "" then [host.ipv4] else []) + (if host.ipv6 != "" then [host.ipv6] else [])
  }

  ghost predicate DistinctLocalNames(zones: seq<LocalZone>) {
    forall i, j | 0 <= i < j < |zones| :: zones[i].name != zones[j].name
  }

  ghost predicate DistinctHostnames(hosts: seq<LocalHost>) {
    forall i, j | 0 <= i < j < |hosts| :: hosts[i].hostname != hosts[j].hostname
  }

  ghost predicate ValidHosts(ip: Netip, hosts: seq<LocalHost>) {
    (forall i | 0 <= i < |hosts| :: ValidLocalHost(ip, hosts[i])) &&
    DistinctHostnames(hosts) && Distinct(Flat(hosts, PtrAddresses))
  }

  ghost predicate ValidLocalZones(ip: Netip, zones: seq<LocalZone>) {
    |zones| <= MAX_LOCAL_ZONES && |AllHosts(zones)| <= MAX_LOCAL_HOSTS_TOTAL &&
    DistinctLocalNames(zones) && ValidHosts(ip, AllHosts(zones)) &&
    forall i | 0 <= i < |zones| ::
      ValidZoneName(zones[i].name) && 1 <= |zones[i].hosts| <= MAX_LOCAL_HOSTS_PER_ZONE
  }

  lemma InvalidPrefix(ip: Netip, prefix: seq<LocalHost>, hosts: seq<LocalHost>)
    requires prefix <= hosts && !ValidHosts(ip, prefix)
    ensures !ValidHosts(ip, hosts)
  {
    hide ValidLocalHost;
    assert prefix == hosts[..|prefix|];
    FlatPrefix(hosts, |prefix|, PtrAddresses);
  }

  /** The seen-maps after checking `done`. */
  ghost predicate Seen(done: seq<LocalHost>, hostnames: set<string>, ptrs: set<string>) {
    (forall n :: n in hostnames <==> exists i | 0 <= i < |done| :: done[i].hostname == n) &&
    (forall p :: p in ptrs <==> p in Flat(done, PtrAddresses))
  }

  /** One address of a host; `known` lists the addresses claimed so far. */
  method ValidateLocalHostAddress(ip: Netip, value: string, wantIPv4: bool, ptr: bool, ptrs: set<string>,
                                  ghost known: seq<string>)
    returns (ok: bool, ptrs': set<string>)
    requires Distinct(known) && forall p :: p in ptrs <==> p in known
    ensures ok <==> ValidLocalAddress(ip, value, wantIPv4) && (ptr ==> Distinct(known + [value]))
    ensures ok ==> ptrs' == ptrs + if ptr then {value} else {}
  {
    hide ValidLocalAddress;
    ok, ptrs' := false, ptrs;
    if !ValidLocalAddress(ip, value, wantIPv4) {
      return;
    }
    if ptr {
      if value in ptrs {
        ghost var j :| 0 <= j < |known| && known[j] == value;
        assert (known + [value])[j] == (known + [value])[|known|];
        return;
      }
      ptrs' := ptrs + {value};
    }
    ok := true;
  }

  lemma DistinctPrefix(a: seq<string>, b: seq<string>)
    requires a <= b && Distinct(b)
    ensures Distinct(a)
  {
  }

  method ValidateLocalHost(ip: Netip, host: LocalHost, hostnames: set<string>, ptrs: set<string>,
                           ghost done: seq<LocalHost>)
    returns (ok: bool, hostnames': set<string>, ptrs': set<string>)
    requires ValidHosts(ip, done) && Seen(done, hostnames, ptrs)
    ensures ok <==> ValidHosts(ip, done + [host])
    ensures ok ==> Seen(done + [host], hostnames', ptrs')
  {
    hide ValidHostLabel, ValidLocalAddress, Distinct, ValidHosts, Seen, Flat;
    ok, hostnames', ptrs' := false, hostnames, ptrs;
    ghost var known := Flat(done, PtrAddresses);
    ghost var more := if host.ipv4 != "" && host.ptr then known + [host.ipv4] else known;
    ghost var most := if host.ipv6 != "" && host.ptr then more + [host.ipv6] else more;
    assert most == known + PtrAddresses(host);
    OneMoreHost(ip, done, host, hostnames, ptrs);
    hide PtrAddresses;
    if Distinct(most) {
      DistinctPrefix(more, most);
    }
    if !ValidHostLabel(host.hostname) || host.hostname in hostnames || (host.ipv4 == "" && host.ipv6 == "") {
      return;
    }
    hostnames' := hostnames' + {host.hostname};
    var fine := true;
    if host.ipv4 != "" {
      fine, ptrs' := ValidateLocalHostAddress(ip, host.ipv4, true, host.ptr, ptrs', known);
      if !fine {
        return;
      }
    }
    if host.ipv6 != "" {
      fine, ptrs' := ValidateLocalHostAddress(ip, host.ipv6, false, host.ptr, ptrs', more);
      if !fine {
        return;
      }
    }
    ok := true;
    SeenMore(done, host, hostnames, ptrs, ptrs');
  }

  lemma OneMoreHost(ip: Netip, done: seq<LocalHost>, host: LocalHost, hostnames: set<string>, ptrs: set<string>)
    requires ValidHosts(ip, done) && Seen(done, hostnames, ptrs)
    ensures Distinct(Flat(done, PtrAddresses)) && forall p :: p in ptrs <==> p in Flat(done, PtrAddresses)
    ensures ValidHosts(ip, done + [host]) <==>
            ValidLocalHost(ip, host) && host.hostname !in hostnames &&
            Distinct(Flat(done, PtrAddresses) + PtrAddresses(host))
  {
    hide ValidLocalHost, PtrAddresses, Distinct;
    var all := done + [host];
    FlatOne(done, host, PtrAddresses);
    assert all[|done|] == host;
    forall i | 0 <= i < |done| ensures all[i] == done[i] {
    }
  }

  lemma SeenMore(done: seq<LocalHost>, host: LocalHost, hostnames: set<string>, ptrs: set<string>, ptrs': set<string>)
    requires Seen(done, hostnames, ptrs)
    requires forall p :: p in ptrs' <==> p in Flat(done, PtrAddresses) + PtrAddresses(host)
    ensures Seen(done + [host], hostnames + {host.hostname}, ptrs')
  {
    hide PtrAddresses;
    var all := done + [host];
    FlatOne(done, host, PtrAddresses);
    assert all[|done|] == host;
    forall i | 0 <= i < |done| ensures all[i] == done[i] {
    }
  }

  lemma HostsUpTo(zones: seq<LocalZone>, i: nat)
    requires i < |zones|
    ensures Flat(zones[..i + 1], ZoneHosts) == Flat(zones[..i], ZoneHosts) + zones[i].hosts
    ensures Flat(zones[..i + 1], ZoneHosts) <= AllHosts(zones)
  {
    FlatSnoc(zones, i, ZoneHosts);
    FlatPrefix(zones, i + 1, ZoneHosts);
  }

  lemma HostAt(zones: seq<LocalZone>, i: nat, k: nat)
    requires i < |zones| && k < |zones[i].hosts|
    ensures var j := |Flat(zones[..i], ZoneHosts)| + k; j < |AllHosts(zones)| && AllHosts(zones)[j] == zones[i].hosts[k]
  {
    HostsUpTo(zones, i);
    var j := |Flat(zones[..i], ZoneHosts)| + k;
    assert Flat(zones[..i + 1], ZoneHosts)[j] == zones[i].hosts[k];
  }

  /** The inner loop of `validateLocalZones`, over the hosts of one zone. */
  method ValidateZoneHosts(ip: Netip, hosts: seq<LocalHost>, hostnames: set<string>, ptrs: set<string>,
                           ghost done: seq<LocalHost>)
    returns (ok: bool, hostnames': set<string>, ptrs': set<string>)
    requires ValidHosts(ip, done) && Seen(done, hostnames, ptrs)
    ensures ok <==> ValidHosts(ip, done + hosts)
    ensures ok ==> Seen(done + hosts, hostnames', ptrs')
  {
    hide ValidHosts, Seen;
    hostnames', ptrs' := hostnames, ptrs;
    assert done + hosts[..0] == done;
    for h := 0 to |hosts|
      invariant ValidHosts(ip, done + hosts[..h]) && Seen(done + hosts[..h], hostnames', ptrs')
    {
      ok, hostnames', ptrs' := ValidateLocalHost(ip, hosts[h], hostnames', ptrs', done + hosts[..h]);
      assert done + hosts[..h] + [hosts[h]] == done + hosts[..h + 1];
      if !ok {
        assert hosts == hosts[..h + 1] + hosts[h + 1..];
        InvalidPrefix(ip, done + hosts[..h + 1], done + hosts);
        return;
      }
    }
    assert hosts[..|hosts|] == hosts;
    ok := true;
  }

  method ValidateLocalZones(ip: Netip, zones: seq<LocalZone>) returns (ok: bool)
    ensures ok <==> ValidLocalZones(ip, zones)
  {
    hide ValidZoneName, ValidHosts, Seen, Flat;
    FlatNothing(ZoneHosts);
    if |zones| > MAX_LOCAL_ZONES {
      return false;
    }
    var names: set<string> := {};
    var hostnames: set<string>, ptrs: set<string> := {}, {};
    var total := 0;
    SeenNothing(ip);
    for i := 0 to |zones|
      invariant forall n :: n in names <==> exists j | 0 <= j < i :: zones[j].name == n
      invariant DistinctLocalNames(zones[..i])
      invariant forall j | 0 <= j < i ::
                  ValidZoneName(zones[j].name) && 1 <= |zones[j].hosts| <= MAX_LOCAL_HOSTS_PER_ZONE
      invariant total == |Flat(zones[..i], ZoneHosts)| <= MAX_LOCAL_HOSTS_TOTAL
      invariant ValidHosts(ip, Flat(zones[..i], ZoneHosts)) && Seen(Flat(zones[..i], ZoneHosts), hostnames, ptrs)
    {
      var zone := zones[i];
      HostsUpTo(zones, i);
      if !ValidZoneName(zone.name) || zone.name in names {
        return false;
      }
      names := names + {zone.name};
      if |zone.hosts| == 0 || |zone.hosts| > MAX_LOCAL_HOSTS_PER_ZONE {
        return false;
      }
      total := total + |zone.hosts|;
      if total > MAX_LOCAL_HOSTS_TOTAL {
        return false;
      }
      var hostsOk;
      hostsOk, hostnames, ptrs := ValidateZoneHosts(ip, zone.hosts, hostnames, ptrs, Flat(zones[..i], ZoneHosts));
      if !hostsOk {
        InvalidPrefix(ip, Flat(zones[..i + 1], ZoneHosts), AllHosts(zones));
        return false;
      }
    }
    assert zones[..|zones|] == zones;
    return true;
  }

  lemma SeenNothing(ip: Netip)
    ensures ValidHosts(ip, []) && Seen([], {}, {})
  {
  }

  // ---------- the whole record ----------

  ghost predicate Valid(ip: Netip, s: Settings) {
    512 <= s.ednsBufferSize <= 4096 &&
    0 <= s.logVerbosity <= 1 &&
    0 <= s.cacheMinTtl <= 3600 &&
    3600 <= s.serveExpiredTtl <= 604800 &&
    0 <= s.serveExpiredClientTimeout <= 5000 &&
    60 <= s.cacheMaxTtl <= 604800 &&
    s.cacheMinTtl <= s.cacheMaxTtl &&
    1 <= s.threads <= 32 &&
    ProfileSizes(s.resourceProfile).Some? &&
    s.networkMode in [IPV4_MODE, DUAL_MODE, IPV6_MODE] &&
    ValidForwardZones(ip, s.forwardZones) &&
    ValidPrivateDomains(s.privateDomains, s.forwardZones) &&
    ValidLocalZones(ip, s.localZones) &&
    ValidReverseZones(s.reverseZones)
  }

  method Validate(ip: Netip, s: Settings) returns (ok: bool)
    ensures ok <==> Valid(ip, s)
  {
    hide ValidForwardZones, ValidPrivateDomains, ValidLocalZones, ValidReverseZones;
    if s.ednsBufferSize < 512 || s.ednsBufferSize > 4096 { return false; }
    if s.logVerbosity < 0 || s.logVerbosity > 1 { return false; }
    if s.cacheMinTtl < 0 || s.cacheMinTtl > 3600 { return false; }
    if s.serveExpiredTtl < 3600 || s.serveExpiredTtl > 604800 { return false; }
    if s.serveExpiredClientTimeout < 0 || s.serveExpiredClientTimeout > 5000 { return false; }
    if s.cacheMaxTtl < 60 || s.cacheMaxTtl > 604800 { return false; }
    if s.cacheMinTtl > s.cacheMaxTtl { return false; }
    if s.threads < 1 || s.threads > 32 { return false; }
    if ProfileSizes(s.resourceProfile).None? { return false; }
    if s.networkMode != IPV4_MODE && s.networkMode != DUAL_MODE && s.networkMode != IPV6_MODE { return false; }
    ok := ValidateForwardZones(ip, s.forwardZones);
    if !ok { return; }
    ok := ValidatePrivateDomains(s.privateDomains, s.forwardZones);
    if !ok { return; }
    ok := ValidateLocalZones(ip, s.localZones);
    if !ok { return; }
    ok := ValidateReverseZones(s.reverseZones);
  }
}
