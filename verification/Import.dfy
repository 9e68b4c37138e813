/**
  `ImportUnboundConf` (import.go:113-246, 539-599, 783-905): classify every directive of an imported
  unbound.conf and fold what is guided into the settings. The functions are the specification; the
  methods run the source's loops.
 */
module UnboundImport {
  import opened Text
  import opened Seqs
  import opened UnboundSettings
  import opened UnboundParse
  import opened UnboundExtract
  import opened UnboundGroups

  const MAX_CUSTOM_CONFIG_BYTES := 65536

  datatype ImportResult = ImportResult(findings: seq<Finding>, settings: Settings, customAdopted: string)

  // ---------- server directives ----------

  /** The guided settings that a single directive states. */
  datatype Field =
    | QnameMinimisation | Prefetch | PrefetchKey | AggressiveNsec | ServeExpired
    | EdnsBufferSize | Verbosity | ServeExpiredTtl | ServeExpiredClientTimeout | CacheMinTtl | CacheMaxTtl | NumThreads

  function FieldOf(key: string): Option<Field> {
    match key
    case "qname-minimisation" => Some(QnameMinimisation)
    case "prefetch" => Some(Prefetch)
    case "prefetch-key" => Some(PrefetchKey)
    case "aggressive-nsec" => Some(AggressiveNsec)
    case "serve-expired" => Some(ServeExpired)
    case "edns-buffer-size" => Some(EdnsBufferSize)
    case "verbosity" => Some(Verbosity)
    case "serve-expired-ttl" => Some(ServeExpiredTtl)
    case "serve-expired-client-timeout" => Some(ServeExpiredClientTimeout)
    case "cache-min-ttl" => Some(CacheMinTtl)
    case "cache-max-ttl" => Some(CacheMaxTtl)
    case "num-threads" => Some(NumThreads)
    case _ => None
  }

  predicate IsSwitch(f: Field) {
    f.QnameMinimisation? || f.Prefetch? || f.PrefetchKey? || f.AggressiveNsec? || f.ServeExpired?
  }

  function ParseSwitch(value: string): Option<bool> {
    if ToLower(value) == "yes" then Some(true) else if ToLower(value) == "no" then Some(false) else None
  }

  function SetSwitch(c: Settings, f: Field, b: bool): Settings
    requires IsSwitch(f)
  {
    match f
    case QnameMinimisation => c.(qnameMinimisation := b)
    case Prefetch => c.(prefetch := b)
    case PrefetchKey => c.(prefetchKey := b)
    case AggressiveNsec => c.(aggressiveNsec := b)
    case ServeExpired => c.(serveExpired := b)
  }

  function SetNumber(c: Settings, f: Field, n: int): Settings
    requires !IsSwitch(f)
  {
    match f
    case EdnsBufferSize => c.(ednsBufferSize := n)
    case Verbosity => c.(logVerbosity := n)
    case ServeExpiredTtl => c.(serveExpiredTtl := n)
    case ServeExpiredClientTimeout => c.(serveExpiredClientTimeout := n)
    case CacheMinTtl => c.(cacheMinTtl := n)
    case CacheMaxTtl => c.(cacheMaxTtl := n)
    case NumThreads => c.(threads := n)
  }

  /** `applyGuidedBool` and `applyGuidedInt`: the value takes effect only when it parses. */
  predicate Parses(f: Field, value: string) {
    if IsSwitch(f) then ParseSwitch(value).Some? else Atoi(value).Some?
  }

  function WriteField(c: Settings, f: Field, value: string): Settings {
    if !Parses(f, value) then c
    else if IsSwitch(f) then SetSwitch(c, f, ParseSwitch(value).value)
    else SetNumber(c, f, Atoi(value).value)
  }

  function FixedBaseValue(key: string): Option<string> {
    if key in ["hide-identity", "hide-version", "harden-glue", "harden-dnssec-stripped", "harden-below-nxdomain"]
    then Some("yes")
    else if key == "unwanted-reply-threshold" then Some("10000000")
    else None
  }

  const FIXED_BASE_STRUCTURAL: seq<string> := ["root-hints", "auto-trust-anchor-file", "trust-anchor-file"]

  const GUIDED_NOT_YET_MAPPED: seq<string> := ["do-ip4", "do-ip6", "prefer-ip6", "rrset-cache-size", "msg-cache-size"]

  const BLOCKED_FILES: seq<string> :=
    ["include", "include-toplevel", "chroot", "directory", "username", "logfile", "pidfile", "interface", "port"]

  const BLOCKED_CONTROL: seq<string> :=
    ["remote-control", "control-enable", "control-interface", "server-key-file", "server-cert-file",
     "control-key-file", "control-cert-file"]

  const BLOCKED_TRUST: seq<string> :=
    ["root-hints", "auto-trust-anchor-file", "trust-anchor-file", "module-config", "val-permissive-mode",
     "domain-insecure", "tls-service-key", "tls-service-pem", "tls-port"]

  const BLOCKED_BEHAVIOUR: seq<string> :=
    ["qname-minimisation", "prefetch", "prefetch-key", "aggressive-nsec", "edns-buffer-size", "verbosity",
     "log-queries", "log-replies"]

  const BLOCKED_CACHE: seq<string> :=
    ["serve-expired", "serve-expired-ttl", "serve-expired-client-timeout", "cache-min-ttl", "cache-max-ttl",
     "num-threads", "rrset-cache-size", "msg-cache-size", "do-ip4", "do-ip6", "prefer-ip6"]

  /** The rows of `blockedDirectives` (custom.go:340-390), in the table's order. */
  const BLOCKED_DIRECTIVES: seq<string> :=
    BLOCKED_FILES + BLOCKED_CONTROL + BLOCKED_TRUST + BLOCKED_BEHAVIOUR + BLOCKED_CACHE

  predicate IsBlockedSection(section: string) {
    section == "remote-control" || section == "python" || section == "dynlib" || section == "dnstap"
  }

  function UnguidedDisposition(kv: KV): Disposition {
    match FixedBaseValue(kv.key)
    case Some(expected) => if kv.value != expected then Blocked else FixedBase
    case None =>
      if kv.key in FIXED_BASE_STRUCTURAL then FixedBase
      else if kv.key in GUIDED_NOT_YET_MAPPED || kv.key in BLOCKED_DIRECTIVES then Blocked
      else Expert
  }

  function ServerDisposition(kv: KV): Disposition {
    match FieldOf(kv.key)
    case Some(f) => if Parses(f, kv.value) then Guided else Blocked
    case None => UnguidedDisposition(kv)
  }

  function ApplyServer(c: Settings, kv: KV): Settings {
    match FieldOf(kv.key) case Some(f) => WriteField(c, f, kv.value) case None => c
  }

  // ---------- zone-scoped directives ----------

  predicate IsZoneScoped(key: string) { key == "domain-insecure" || key == "private-domain" }

  function OptIn(key: string, name: string): ForwardZone -> ForwardZone {
    (z: ForwardZone) =>
      if z.name != name then z
      else if key == "domain-insecure" then z.(allowUnsigned := true)
      else z.(allowPrivateAddresses := true)
  }

  function ZoneScopedDisposition(names: set<string>, kv: KV): Disposition {
    if kv.value in names || kv.key == "private-domain" then Guided else Expert
  }

  // ---------- the pass over the unconsumed directives ----------

  datatype Sweep = Sweep(
    candidate: Settings,
    zones: seq<ForwardZone>,
    privateDomains: seq<string>,
    findings: seq<Finding>,
    expert: seq<string>
  )

  function DispositionOf(names: set<string>, kv: KV): Disposition {
    if IsZoneScoped(kv.key) then ZoneScopedDisposition(names, kv) else ServerDisposition(kv)
  }

  function DirectiveFinding(names: set<string>, d: ParsedDirective): Finding {
    Finding("server", d.line, d.key, d.value, DispositionOf(names, KVOf(d)))
  }

  function DirectiveExpert(names: set<string>, d: ParsedDirective): seq<string> {
    if DispositionOf(names, KVOf(d)) == Expert then [d.raw] else []
  }

  /** The guided effect of one unconsumed server directive. */
  function Apply(st: Sweep, names: set<string>, kv: KV): Sweep {
    if !IsZoneScoped(kv.key) then st.(candidate := ApplyServer(st.candidate, kv))
    else if kv.value in names then st.(zones := Map(st.zones, OptIn(kv.key, kv.value)))
    else if kv.key == "private-domain" then st.(privateDomains := st.privateDomains + [kv.value])
    else st
  }

  function SweepDirective(st: Sweep, names: set<string>, d: ParsedDirective): Sweep {
    Apply(st, names, KVOf(d)).(
      findings := st.findings + [DirectiveFinding(names, d)],
      expert := st.expert + DirectiveExpert(names, d))
  }

  /** The first `n` directives of block `b`, without the consumed ones. */
  ghost function SweepDirectives(st: Sweep, names: set<string>, consumed: iset<Place>, b: nat,
                                 ds: seq<ParsedDirective>, n: nat): Sweep
    requires n <= |ds|
  {
    if n == 0 then st
    else
      var before := SweepDirectives(st, names, consumed, b, ds, n - 1);
      if Place(b, n - 1) in consumed then before else SweepDirective(before, names, ds[n - 1])
  }

  function ClauseFinding(block: ParsedBlock): Finding {
    Finding(block.section, block.lineStart, block.section, "",
            if IsBlockedSection(block.section) then Blocked else Expert)
  }

  function IndentedRaw(d: ParsedDirective): string { "    " + d.raw }

  function ClauseLines(block: ParsedBlock): seq<string> {
    if IsBlockedSection(block.section) then [] else [block.section + ":"] + Map(block.directives, IndentedRaw)
  }

  ghost function SweepBlock(st: Sweep, names: set<string>, consumed: iset<Place>, mapped: iset<nat>, b: nat,
                            block: ParsedBlock): Sweep {
    if b in mapped then st
    else if block.section == "server" then SweepDirectives(st, names, consumed, b, block.directives, |block.directives|)
    else st.(findings := st.findings + [ClauseFinding(block)], expert := st.expert + ClauseLines(block))
  }

  ghost function SweepBlocks(st: Sweep, names: set<string>, consumed: iset<Place>, mapped: iset<nat>,
                             blocks: seq<ParsedBlock>, n: nat): Sweep
    requires n <= |blocks|
  {
    if n == 0 then st
    else SweepBlock(SweepBlocks(st, names, consumed, mapped, blocks, n - 1), names, consumed, mapped, n - 1,
                    blocks[n - 1])
  }

  // ---------- merging ----------

  function Upsert<T>(xs: seq<T>, item: T, nameOf: T -> string): seq<T> {
    if xs == [] then [item]
    else if nameOf(xs[0]) == nameOf(item) then [item] + xs[1..]
    else [xs[0]] + Upsert(xs[1..], item, nameOf)
  }

  function MergeByName<T>(existing: seq<T>, incoming: seq<T>, nameOf: T -> string): seq<T> {
    if incoming == [] then existing
    else Upsert(MergeByName(existing, incoming[..|incoming| - 1], nameOf), incoming[|incoming| - 1], nameOf)
  }

  lemma {:induction false} UpsertSplit<T>(xs: seq<T>, item: T, nameOf: T -> string, i: nat)
    requires i <= |xs| && forall k | 0 <= k < i :: nameOf(xs[k]) != nameOf(item)
    requires i < |xs| ==> nameOf(xs[i]) == nameOf(item)
    ensures Upsert(xs, item, nameOf) == if i < |xs| then xs[i := item] else xs + [item]
  {
    if i > 0 {
      UpsertSplit(xs[1..], item, nameOf, i - 1);
      assert xs == [xs[0]] + xs[1..];
      if i < |xs| {
        assert xs[i := item] == [xs[0]] + xs[1..][i - 1 := item];
      }
    } else if |xs| > 0 {
      assert xs[0 := item] == [item] + xs[1..];
    }
  }

  method MergeZonesByName<T>(existing: seq<T>, incoming: seq<T>, nameOf: T -> string) returns (merged: seq<T>)
    ensures merged == MergeByName(existing, incoming, nameOf)
  {
    merged := existing;
    for k := 0 to |incoming|
      invariant merged == MergeByName(existing, incoming[..k], nameOf)
    {
      assert incoming[..k + 1][..k] == incoming[..k];
      var item := incoming[k];
      var replaced := false;
      ghost var before := merged;
      var i := 0;
      while i < |merged| && !replaced
        invariant 0 <= i <= |merged|
        invariant !replaced ==> merged == before && forall j | 0 <= j < i :: nameOf(merged[j]) != nameOf(item)
        invariant replaced ==> merged == Upsert(before, item, nameOf)
      {
        if nameOf(merged[i]) == nameOf(item) {
          UpsertSplit(before, item, nameOf, i);
          merged := merged[i := item];
          replaced := true;
        }
        i := i + 1;
      }
      if !replaced {
        UpsertSplit(before, item, nameOf, |before|);
        merged := merged + [item];
      }
    }
    assert incoming[..|incoming|] == incoming;
  }

  function MergeDomains(existing: seq<string>, incoming: seq<string>, zones: seq<ForwardZone>): seq<string> {
    if incoming == [] then existing
    else
      var merged := MergeDomains(existing, incoming[..|incoming| - 1], zones);
      var d := incoming[|incoming| - 1];
      if d in merged || ClaimedByZone(d, zones) then merged else merged + [d]
  }

  method MergePrivateDomains(existing: seq<string>, incoming: seq<string>, zones: seq<ForwardZone>)
    returns (merged: seq<string>)
    ensures merged == MergeDomains(existing, incoming, zones)
  {
    var seen: set<string> := set d | d in existing;
    merged := existing;
    for k := 0 to |incoming|
      invariant merged == MergeDomains(existing, incoming[..k], zones)
      invariant forall d :: d in seen <==> d in merged
    {
      assert incoming[..k + 1][..k] == incoming[..k];
      var d := incoming[k];
      if d in seen {
        continue;
      }
      var conflict := false;
      var i := 0;
      while i < |zones| && !conflict
        invariant 0 <= i <= |zones|
        invariant conflict ==> ClaimedByZone(d, zones)
        invariant !conflict ==> forall j | 0 <= j < i :: !(zones[j].allowPrivateAddresses && zones[j].name == d)
      {
        conflict := zones[i].allowPrivateAddresses && zones[i].name == d;
        i := i + 1;
      }
      if conflict {
        continue;
      }
      seen := seen + {d};
      merged := merged + [d];
    }
    assert incoming[..|incoming|] == incoming;
  }

  ghost function WithPolicy(items: seq<Item>): ReverseZonePolicy -> ReverseZonePolicy {
    (p: ReverseZonePolicy) => match PolicyOf(items, p.network) case Some(mode) => p.(mode := mode) case None => p
  }

  // ---------- the whole import ----------

  ghost function AllConsumed(ip: Netip, blocks: seq<ParsedBlock>): iset<Place> {
    iset p | LocalConsumed(ip, blocks, p) || ReverseConsumed(blocks, p) || ModeConsumed(blocks, p) ||
             ProfileConsumed(blocks, p)
  }

  ghost function Mapped(ip: Netip, blocks: seq<ParsedBlock>): iset<nat> {
    iset b: nat | b < |blocks| && MappedZone(ip, blocks[b]).Some?
  }

  function ZoneNames(zones: seq<ForwardZone>): set<string> { set i | 0 <= i < |zones| :: zones[i].name }

  function ForwardNameOf(z: ForwardZone): string { z.name }
  function LocalNameOf(z: LocalZone): string { z.name }

  ghost function Swept(ip: Netip, current: Settings, blocks: seq<ParsedBlock>): Sweep {
    var zones := MappedZones(ip, blocks);
    SweepBlocks(Sweep(current, zones, [], [], []), ZoneNames(zones), AllConsumed(ip, blocks), Mapped(ip, blocks),
                blocks, |blocks|)
  }

  ghost function Combine(ip: Netip, current: Settings, blocks: seq<ParsedBlock>, swept: Sweep): Settings {
    var items := Items(blocks);
    var zones := MergeByName(current.forwardZones, swept.zones, ForwardNameOf);
    swept.candidate.(
      forwardZones := zones,
      localZones := MergeByName(current.localZones, LocalZonesIn(ip, blocks), LocalNameOf),
      privateDomains := MergeDomains(current.privateDomains, swept.privateDomains, zones),
      reverseZones := Map(current.reverseZones, WithPolicy(items)),
      networkMode := (match NetworkModeOf(items) case Some(mode) => mode case None => current.networkMode),
      resourceProfile := (match ProfileOf(items) case Some(profile) => profile case None => current.resourceProfile))
  }

  function Adopt(custom: string, expert: seq<string>): string {
    var kept := TrimSpace(custom);
    if expert == [] then kept else (if kept == "" then "" else kept + "\n\n") + JoinWith(expert) + "\n"
  }

  /** What the extractors report, in the order in which they run. */
  ghost function ExtractorFindings(ip: Netip, blocks: seq<ParsedBlock>): seq<Finding> {
    Flat(blocks, ZoneFinding(ip)) + Flat(blocks, LocalFinding(ip)) + Flat(NETWORKS, PolicyFindings(blocks)) +
    ModeFindings(blocks) + ProfileFindings(blocks)
  }

  ghost function ImportOf(ip: Netip, current: Settings, custom: string, blocks: seq<ParsedBlock>): ImportResult {
    var swept := Swept(ip, current, blocks);
    ImportResult(ExtractorFindings(ip, blocks) + swept.findings, Combine(ip, current, blocks, swept),
                 Adopt(custom, swept.expert))
  }

  ghost function Imported(ip: Netip, current: Settings, custom: string, content: string): Option<ImportResult> {
    if ByteLength(content) > MAX_CUSTOM_CONFIG_BYTES then None
    else Some(ImportOf(ip, current, custom, Blocks(content)))
  }

  // ---------- the source's loops ----------

  method ClassifyZoneScoped(st: Sweep, names: set<string>, d: ParsedDirective) returns (st': Sweep)
    requires IsZoneScoped(d.key)
    ensures st' == SweepDirective(st, names, d)
  {
    hide ServerDisposition, ApplyServer;
    if d.value in names {
      var zones := st.zones;
      for i := 0 to |zones|
        invariant |zones| == |st.zones|
        invariant forall k | 0 <= k < i :: zones[k] == OptIn(d.key, d.value)(st.zones[k])
        invariant forall k | i <= k < |zones| :: zones[k] == st.zones[k]
      {
        if zones[i].name == d.value {
          if d.key == "domain-insecure" {
            zones := zones[i := zones[i].(allowUnsigned := true)];
          } else {
            zones := zones[i := zones[i].(allowPrivateAddresses := true)];
          }
        }
      }
      assert zones == Map(st.zones, OptIn(d.key, d.value));
      return st.(zones := zones, findings := st.findings + [Finding("server", d.line, d.key, d.value, Guided)]);
    }
    if d.key == "private-domain" {
      return st.(privateDomains := st.privateDomains + [d.value],
                 findings := st.findings + [Finding("server", d.line, d.key, d.value, Guided)]);
    }
    return st.(findings := st.findings + [Finding("server", d.line, d.key, d.value, Expert)],
               expert := st.expert + [d.raw]);
  }

  method SweepServerBlock(st: Sweep, names: set<string>, consumed: set<Place>, ghost all: iset<Place>, b: nat,
                          ds: seq<ParsedDirective>)
    returns (st': Sweep)
    requires forall p :: p in consumed <==> p in all
    ensures st' == SweepDirectives(st, names, all, b, ds, |ds|)
  {
    hide DispositionOf, Apply;
    st' := st;
    for i := 0 to |ds|
      invariant st' == SweepDirectives(st, names, all, b, ds, i)
    {
      if Place(b, i) in consumed {
        continue;
      }
      if IsZoneScoped(ds[i].key) {
        st' := ClassifyZoneScoped(st', names, ds[i]);
        continue;
      }
      st' := SweepDirective(st', names, ds[i]);
    }
  }

  lemma ServerNotBlocked()
    ensures !IsBlockedSection("server")
  {
  }

  method SweepAll(ip: Netip, current: Settings, blocks: seq<ParsedBlock>, zones: seq<ForwardZone>, names: set<string>,
                  mapped: set<nat>, consumed: set<Place>)
    returns (st: Sweep)
    requires zones == MappedZones(ip, blocks) && names == ZoneNames(zones)
    requires forall b :: b in mapped <==> b in Mapped(ip, blocks)
    requires forall p :: p in consumed <==> p in AllConsumed(ip, blocks)
    ensures st == Swept(ip, current, blocks)
  {
    hide AllConsumed, Mapped, SweepDirectives, IsBlockedSection, MappedZones, ZoneNames;
    st := Sweep(current, zones, [], [], []);
    ghost var start := st;
    for b := 0 to |blocks|
      invariant st == SweepBlocks(start, names, AllConsumed(ip, blocks), Mapped(ip, blocks), blocks, b)
    {
      var block := blocks[b];
      if b in mapped {
        continue;
      }
      if IsBlockedSection(block.section) {
        ServerNotBlocked();
        st := st.(findings := st.findings + [Finding(block.section, block.lineStart, block.section, "", Blocked)]);
        continue;
      }
      if block.section != "server" {
        var lines := [block.section + ":"];
        for i := 0 to |block.directives|
          invariant lines == [block.section + ":"] + Map(block.directives, IndentedRaw)[..i]
        {
          lines := lines + ["    " + block.directives[i].raw];
        }
        st := st.(findings := st.findings + [Finding(block.section, block.lineStart, block.section, "", Expert)],
                  expert := st.expert + lines);
        continue;
      }
      st := SweepServerBlock(st, names, consumed, AllConsumed(ip, blocks), b, block.directives);
    }
  }

  method ApplyPolicies(zones: seq<ReverseZonePolicy>, policies: map<string, string>, ghost items: seq<Item>)
    returns (r: seq<ReverseZonePolicy>)
    requires forall n :: n in policies <==> n in NETWORKS && PolicyOf(items, n).Some?
    requires forall n | n in policies :: Some(policies[n]) == PolicyOf(items, n)
    ensures r == Map(zones, WithPolicy(items))
  {
    hide UniformNetwork;
    r := zones;
    for i := 0 to |r|
      invariant |r| == |zones|
      invariant forall k | 0 <= k < i :: r[k] == WithPolicy(items)(zones[k])
      invariant forall k | i <= k < |r| :: r[k] == zones[k]
    {
      if r[i].network in policies {
        r := r[i := r[i].(mode := policies[r[i].network])];
      }
    }
  }

  method ImportUnboundConf(ip: Netip, current: Settings, custom: string, content: string)
    returns (r: Option<ImportResult>)
    ensures r == Imported(ip, current, custom, content)
  {
    hide LocalConsumed, ReverseConsumed, ModeConsumed, ProfileConsumed, SweepBlocks, MappedZone, PolicyOf,
      NetworkModeOf, ProfileOf, TrimSpace, ByteLength, Blocks, JoinWith, Combine, LocalZonesIn, Items, Swept,
      MappedZones, ModeFindings, ProfileFindings;
    if ByteLength(content) > MAX_CUSTOM_CONFIG_BYTES {
      return None;
    }
    var blocks := ParseUnboundConf(content);
    var zones, zoneNames, mapped, findings := ExtractForwardZones(ip, blocks);
    assert zoneNames == ZoneNames(zones);
    var localZones, consumed, localFindings := ExtractLocalZones(ip, blocks);
    findings := findings + localFindings;
    var policies, reverseConsumed, reverseFindings := ExtractReverseZonePolicies(blocks);
    findings, consumed := findings + reverseFindings, consumed + reverseConsumed;
    var networkMode, modeConsumed, modeFindings := ExtractNetworkMode(blocks);
    findings, consumed := findings + modeFindings, consumed + modeConsumed;
    var profile, profileConsumed, profileFindings := ExtractResourceProfile(blocks);
    findings, consumed := findings + profileFindings, consumed + profileConsumed;
    assert findings == ExtractorFindings(ip, blocks);
    var swept := SweepAll(ip, current, blocks, zones, zoneNames, mapped, consumed);
    KeepsLists(ip, current, blocks);
    var candidate := MergeAll(ip, current, blocks, swept, zones, localZones, policies, networkMode, profile);
    var adopted := TrimSpace(custom);
    if |swept.expert| > 0 {
      if adopted != "" {
        adopted := adopted + "\n\n";
      }
      adopted := adopted + (JoinWith(swept.expert) + "\n");
    }
    assert adopted == Adopt(custom, swept.expert);
    return Some(ImportResult(findings + swept.findings, candidate, adopted));
  }

  /** The tail of the import: fold everything that was extracted into the candidate. */
  method MergeAll(ip: Netip, current: Settings, blocks: seq<ParsedBlock>, swept: Sweep, zones: seq<ForwardZone>,
                  localZones: seq<LocalZone>, policies: map<string, string>, networkMode: Option<string>,
                  profile: Option<string>)
    returns (candidate: Settings)
    requires SameLists(swept.candidate, current) && |swept.zones| == |zones|
    requires localZones == LocalZonesIn(ip, blocks)
    requires forall n :: n in policies <==> n in NETWORKS && PolicyOf(Items(blocks), n).Some?
    requires forall n | n in policies :: Some(policies[n]) == PolicyOf(Items(blocks), n)
    requires networkMode == NetworkModeOf(Items(blocks)) && profile == ProfileOf(Items(blocks))
    ensures candidate == Combine(ip, current, blocks, swept)
  {
    hide NetworkModeOf, ProfileOf, Items, LocalZonesIn, WithPolicy, PolicyOf, MergeByName, MergeDomains;
    ghost var items := Items(blocks);
    NothingToMerge(current.forwardZones, ForwardNameOf);
    NothingToMerge(current.localZones, LocalNameOf);
    var forwardZones := swept.candidate.forwardZones;
    if |zones| > 0 {
      forwardZones := MergeZonesByName(forwardZones, swept.zones, ForwardNameOf);
    }
    var merged := swept.candidate.localZones;
    if |localZones| > 0 {
      merged := MergeZonesByName(merged, localZones, LocalNameOf);
    }
    var domains := swept.candidate.privateDomains;
    NoDomainsToMerge(domains, forwardZones);
    if |swept.privateDomains| > 0 {
      domains := MergePrivateDomains(domains, swept.privateDomains, forwardZones);
    }
    var reverseZones := swept.candidate.reverseZones;
    if |policies| > 0 {
      reverseZones := ApplyPolicies(reverseZones, policies, items);
    } else {
      NoPolicies(current.reverseZones, policies, items);
    }
    var mode := if networkMode.Some? then networkMode.value else swept.candidate.networkMode;
    var chosen := if profile.Some? then profile.value else swept.candidate.resourceProfile;
    candidate := swept.candidate.(forwardZones := forwardZones, localZones := merged, privateDomains := domains,
                                  reverseZones := reverseZones, networkMode := mode, resourceProfile := chosen);
  }

  lemma NothingToMerge<T>(existing: seq<T>, nameOf: T -> string)
    ensures MergeByName(existing, [], nameOf) == existing
  {
  }

  lemma NoDomainsToMerge(existing: seq<string>, zones: seq<ForwardZone>)
    ensures MergeDomains(existing, [], zones) == existing
  {
  }

  lemma NoPolicies(zones: seq<ReverseZonePolicy>, policies: map<string, string>, items: seq<Item>)
    requires forall n :: n in policies <==> n in NETWORKS && PolicyOf(items, n).Some?
    requires |policies| == 0
    ensures Map(zones, WithPolicy(items)) == zones
  {
    hide UniformNetwork;
    forall i | 0 <= i < |zones| ensures WithPolicy(items)(zones[i]) == zones[i] {
      assert zones[i].network !in policies;
    }
  }

  /** The sweep writes single settings only, and never adds or removes a zone. */
  lemma KeepsLists(ip: Netip, current: Settings, blocks: seq<ParsedBlock>)
    ensures SameLists(Swept(ip, current, blocks).candidate, current)
    ensures |Swept(ip, current, blocks).zones| == |MappedZones(ip, blocks)|
  {
    var zones := MappedZones(ip, blocks);
    SweepKeepsLists(Sweep(current, zones, [], [], []), ZoneNames(zones), AllConsumed(ip, blocks), Mapped(ip, blocks),
                    blocks, |blocks|);
  }

  ghost predicate SameLists(a: Settings, b: Settings) {
    a.forwardZones == b.forwardZones && a.localZones == b.localZones && a.privateDomains == b.privateDomains &&
    a.reverseZones == b.reverseZones && a.networkMode == b.networkMode && a.resourceProfile == b.resourceProfile
  }

  lemma ApplyKeepsLists(st: Sweep, names: set<string>, kv: KV)
    ensures SameLists(Apply(st, names, kv).candidate, st.candidate) && |Apply(st, names, kv).zones| == |st.zones|
  {
    hide IsZoneScoped, ApplyServer;
    ApplyServerKeepsLists(st.candidate, kv);
  }

  lemma ApplyServerKeepsLists(c: Settings, kv: KV)
    ensures SameLists(ApplyServer(c, kv), c)
  {
    hide FieldOf, WriteField;
    if FieldOf(kv.key).Some? {
      WriteFieldKeepsLists(c, FieldOf(kv.key).value, kv.value);
    }
  }

  lemma WriteFieldKeepsLists(c: Settings, f: Field, value: string)
    ensures SameLists(WriteField(c, f, value), c)
  {
    hide ParseSwitch, Atoi;
  }

  lemma {:induction false} SweepDirectivesKeepsLists(st: Sweep, names: set<string>, consumed: iset<Place>, b: nat,
                                                    ds: seq<ParsedDirective>, n: nat)
    requires n <= |ds|
    ensures SameLists(SweepDirectives(st, names, consumed, b, ds, n).candidate, st.candidate)
    ensures |SweepDirectives(st, names, consumed, b, ds, n).zones| == |st.zones|
  {
    hide Apply, DirectiveFinding, DirectiveExpert;
    if n > 0 {
      SweepDirectivesKeepsLists(st, names, consumed, b, ds, n - 1);
      ApplyKeepsLists(SweepDirectives(st, names, consumed, b, ds, n - 1), names, KVOf(ds[n - 1]));
    }
  }

  lemma {:induction false} SweepKeepsLists(st: Sweep, names: set<string>, consumed: iset<Place>, mapped: iset<nat>,
                                           blocks: seq<ParsedBlock>, n: nat)
    requires n <= |blocks|
    ensures SameLists(SweepBlocks(st, names, consumed, mapped, blocks, n).candidate, st.candidate)
    ensures |SweepBlocks(st, names, consumed, mapped, blocks, n).zones| == |st.zones|
  {
    hide SweepDirectives, ClauseFinding, ClauseLines;
    if n > 0 {
      SweepKeepsLists(st, names, consumed, mapped, blocks, n - 1);
      SweepDirectivesKeepsLists(SweepBlocks(st, names, consumed, mapped, blocks, n - 1), names, consumed, n - 1,
                                blocks[n - 1].directives, |blocks[n - 1].directives|);
    }
  }
}
