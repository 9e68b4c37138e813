/**
  `Settings.Render` (settings.go:475-587): the settings record as unbound.conf text. `RenderedLines`
  says which lines the text has; the method writes them into a buffer in the source's order.
 */
module UnboundRender {
  import opened Text
  import opened Seqs
  import opened UnboundSettings

  function YesNo(value: bool): string { if value then "yes" else "no" }

  function ReverseZoneType(mode: string): string { if mode == TRANSPARENT then "transparent" else "static" }

  /** An indented directive line. */
  function Directive(key: string, value: string): string { "    " + key + ": " + value }

  /** An indented comment line. */
  function Comment(text: string): string { "    # " + text }

  /** The explanatory comments, whose wording is left open. */
  datatype Remark =
    | Generated | OnQname | OnPrefetch | OnPrefetchKey | OnNsec | OnEdns | OnVerbosity | OnServeExpired | OnExpiredTtl
    | OnExpiredTimeout | OnMinTtl | OnMaxTtl | OnThreads | OnProfile | OnNetwork | OnPrivateDomain | OnUnsigned
    | OnRebinding | OnReverse | OnLocalZone | OnForwarding | OnSuffix | OnUpstream | OnFallback

  type Wording = Remark -> string

  /** A directive of fixed position, with the comment above it when it has one. */
  datatype Entry = Entry(remark: Option<Remark>, key: string, value: string)

  function EntryLines(words: Wording): Entry -> seq<string> {
    (e: Entry) =>
      (match e.remark case Some(r) => [Comment(words(r))] case None => []) + [Directive(e.key, e.value)]
  }

  function BehaviourEntries(s: Settings): seq<Entry> {
    [Entry(Some(OnQname), "qname-minimisation", YesNo(s.qnameMinimisation)),
     Entry(Some(OnPrefetch), "prefetch", YesNo(s.prefetch)),
     Entry(Some(OnPrefetchKey), "prefetch-key", YesNo(s.prefetchKey)),
     Entry(Some(OnNsec), "aggressive-nsec", YesNo(s.aggressiveNsec)),
     Entry(Some(OnEdns), "edns-buffer-size", Itoa(s.ednsBufferSize)),
     Entry(Some(OnVerbosity), "verbosity", Itoa(s.logVerbosity)),
     Entry(None, "log-queries", "no"),
     Entry(None, "log-replies", "no")]
  }

  function CacheEntries(s: Settings): seq<Entry> {
    [Entry(Some(OnServeExpired), "serve-expired", YesNo(s.serveExpired)),
     Entry(Some(OnExpiredTtl), "serve-expired-ttl", Itoa(s.serveExpiredTtl)),
     Entry(Some(OnExpiredTimeout), "serve-expired-client-timeout", Itoa(s.serveExpiredClientTimeout)),
     Entry(Some(OnMinTtl), "cache-min-ttl", Itoa(s.cacheMinTtl)),
     Entry(Some(OnMaxTtl), "cache-max-ttl", Itoa(s.cacheMaxTtl)),
     Entry(Some(OnThreads), "num-threads", Itoa(s.threads))]
  }

  function ProfileEntries(s: Settings): seq<Entry>
    requires ProfileSizes(s.resourceProfile).Some?
  {
    var sizes := ProfileSizes(s.resourceProfile).value;
    [Entry(Some(OnProfile), "rrset-cache-size", sizes.rrset),
     Entry(None, "msg-cache-size", sizes.message)]
  }

  function NetworkEntries(s: Settings): seq<Entry> {
    [Entry(Some(OnNetwork), "do-ip4", YesNo(s.networkMode != IPV6_MODE)),
     Entry(None, "do-ip6", YesNo(s.networkMode != IPV4_MODE)),
     Entry(None, "prefer-ip6", YesNo(s.networkMode == IPV6_MODE))]
  }

  function FixedEntries(s: Settings): seq<Entry>
    requires ProfileSizes(s.resourceProfile).Some?
  {
    BehaviourEntries(s) + CacheEntries(s) + ProfileEntries(s) + NetworkEntries(s)
  }

  function PrivateDomainLines(words: Wording): string -> seq<string> {
    (domain: string) => [Comment(words(OnPrivateDomain)), Directive("private-domain", Quote(domain))]
  }

  function OptInLines(words: Wording): ForwardZone -> seq<string> {
    (zone: ForwardZone) =>
      (if zone.allowUnsigned then
         [Comment(words(OnUnsigned)), Directive("domain-insecure", Quote(zone.name))] else []) +
      (if zone.allowPrivateAddresses then
         [Comment(words(OnRebinding)), Directive("private-domain", Quote(zone.name))] else [])
  }

  function ReverseNameLines(words: Wording, mode: string): string -> seq<string> {
    (name: string) =>
      [Comment(words(OnReverse)),
       Directive("local-zone", Quote(name) + " " + ReverseZoneType(mode))]
  }

  function PolicyLines(words: Wording): ReverseZonePolicy -> seq<string> {
    (policy: ReverseZonePolicy) => Flat(ReverseNames(policy.network), ReverseNameLines(words, policy.mode))
  }

  function DataValue(zoneName: string, host: LocalHost, recordType: string, address: string): string {
    host.hostname + "." + zoneName + " IN " + recordType + " " + address
  }

  function PtrValue(zoneName: string, host: LocalHost, address: string): string {
    address + " " + TrimSuffix(host.hostname + "." + zoneName, ".")
  }

  function HostLines(zoneName: string): LocalHost -> seq<string> {
    (host: LocalHost) =>
      (if host.ipv4 != "" then [Directive("local-data", Quote(DataValue(zoneName, host, "A", host.ipv4)))] else []) +
      (if host.ipv6 != "" then [Directive("local-data", Quote(DataValue(zoneName, host, "AAAA", host.ipv6)))] else []) +
      (if host.ptr && host.ipv4 != "" then
         [Directive("local-data-ptr", "\"" + PtrValue(zoneName, host, host.ipv4) + "\"")] else []) +
      (if host.ptr && host.ipv6 != "" then
         [Directive("local-data-ptr", "\"" + PtrValue(zoneName, host, host.ipv6) + "\"")] else [])
  }

  function LocalZoneLines(words: Wording): LocalZone -> seq<string> {
    (zone: LocalZone) =>
      [Comment(words(OnLocalZone)), Directive("local-zone", Quote(zone.name) + " static")] +
      Flat(zone.hosts, HostLines(zone.name))
  }

  function ServerLines(words: Wording): string -> seq<string> {
    (server: string) => [Comment(words(OnUpstream)), Directive("forward-addr", server)]
  }

  function ForwardZoneLines(words: Wording): ForwardZone -> seq<string> {
    (zone: ForwardZone) =>
      ["", "# " + words(OnForwarding), "forward-zone:"] + ForwardBody(words, zone)
  }

  function ForwardBody(words: Wording, zone: ForwardZone): seq<string> {
    [Comment(words(OnSuffix)), Directive("name", Quote(zone.name))] +
    Flat(zone.servers, ServerLines(words)) +
    [Comment(words(OnFallback)), Directive("forward-first", YesNo(zone.forwardFirst))]
  }

  function HeadLines(words: Wording): seq<string> { ["# " + words(Generated), "server:"] }

  function RenderedLines(words: Wording, s: Settings): seq<string>
    requires ProfileSizes(s.resourceProfile).Some?
  {
    HeadLines(words) + Flat(FixedEntries(s), EntryLines(words)) + Flat(s.privateDomains, PrivateDomainLines(words)) +
    Flat(s.forwardZones, OptInLines(words)) + Flat(s.reverseZones, PolicyLines(words)) +
    Flat(s.localZones, LocalZoneLines(words)) +
    Flat(s.forwardZones, ForwardZoneLines(words))
  }

  /** What `Render` returns: the text of a valid record, an error otherwise. */
  ghost function Rendered(ip: Netip, words: Wording, s: Settings): Option<string> {
    if Valid(ip, s) then Some(JoinLines(RenderedLines(words, s))) else None
  }

  // ---------- the buffer-writing method ----------

  /** One more element has been written. */
  lemma Wrote<T>(out: string, head: seq<string>, xs: seq<T>, i: nat, f: T -> seq<string>)
    requires i < |xs| && out == JoinLines(head + Flat(xs[..i], f))
    ensures out + JoinLines(f(xs[i])) == JoinLines(head + Flat(xs[..i + 1], f))
  {
    FlatSnoc(xs, i, f);
    JoinLinesConcat(head + Flat(xs[..i], f), f(xs[i]));
    assert head + Flat(xs[..i + 1], f) == head + Flat(xs[..i], f) + f(xs[i]);
  }

  lemma DataValues(zoneName: string, host: LocalHost)
    ensures host.hostname + "." + zoneName + " IN A " + host.ipv4 == DataValue(zoneName, host, "A", host.ipv4)
    ensures host.hostname + "." + zoneName + " IN AAAA " + host.ipv6 == DataValue(zoneName, host, "AAAA", host.ipv6)
  {
    var fqdn := host.hostname + "." + zoneName;
    assert " IN A " == " IN " + "A" + " ";
    assert " IN AAAA " == " IN " + "AAAA" + " ";
  }

  method WriteHost(out: string, zoneName: string, host: LocalHost) returns (out': string)
    ensures out' == out + JoinLines(HostLines(zoneName)(host))
  {
    hide Directive, Quote, DataValue;
    DataValues(zoneName, host);
    var fqdn := host.hostname + "." + zoneName;
    var text := "";
    ghost var lines: seq<string> := [];
    if host.ipv4 != "" {
      var line := Directive("local-data", Quote(fqdn + " IN A " + host.ipv4));
      JoinLinesSnoc(lines, line);
      text, lines := text + line + "\n", lines + [line];
    }
    if host.ipv6 != "" {
      var line := Directive("local-data", Quote(fqdn + " IN AAAA " + host.ipv6));
      JoinLinesSnoc(lines, line);
      text, lines := text + line + "\n", lines + [line];
    }
    if host.ptr {
      var target := TrimSuffix(fqdn, ".");
      if host.ipv4 != "" {
        var line := Directive("local-data-ptr", "\"" + (host.ipv4 + " " + target) + "\"");
        JoinLinesSnoc(lines, line);
        text, lines := text + line + "\n", lines + [line];
      }
      if host.ipv6 != "" {
        var line := Directive("local-data-ptr", "\"" + (host.ipv6 + " " + target) + "\"");
        JoinLinesSnoc(lines, line);
        text, lines := text + line + "\n", lines + [line];
      }
    }
    assert lines == HostLines(zoneName)(host);
    out' := out + text;
  }

  method WriteLocalZone(out: string, words: Wording, zone: LocalZone) returns (out': string)
    ensures out' == out + JoinLines(LocalZoneLines(words)(zone))
  {
    hide Directive, Quote, Comment, HostLines, JoinLines;
    var head :=
      [Comment(words(OnLocalZone)),
       Directive("local-zone", Quote(zone.name) + " static")];
    var text := JoinLines(head);
    assert head + Flat(zone.hosts[..0], HostLines(zone.name)) == head;
    for i := 0 to |zone.hosts|
      invariant text == JoinLines(head + Flat(zone.hosts[..i], HostLines(zone.name)))
    {
      Wrote(text, head, zone.hosts, i, HostLines(zone.name));
      text := WriteHost(text, zone.name, zone.hosts[i]);
    }
    assert zone.hosts[..|zone.hosts|] == zone.hosts;
    out' := out + text;
  }

  method WritePolicy(out: string, words: Wording, policy: ReverseZonePolicy) returns (out': string)
    ensures out' == out + JoinLines(PolicyLines(words)(policy))
  {
    hide JoinLines, ReverseNames, ReverseNameLines;
    var names := ReverseNames(policy.network);
    var text := JoinLines([]);
    assert [] + Flat(names[..0], ReverseNameLines(words, policy.mode)) == [];
    for i := 0 to |names|
      invariant text == JoinLines([] + Flat(names[..i], ReverseNameLines(words, policy.mode)))
    {
      Wrote(text, [], names, i, ReverseNameLines(words, policy.mode));
      text := text + JoinLines(ReverseNameLines(words, policy.mode)(names[i]));
    }
    assert names[..|names|] == names;
    assert [] + Flat(names, ReverseNameLines(words, policy.mode)) == PolicyLines(words)(policy);
    out' := out + text;
  }

  method WriteForwardZone(out: string, words: Wording, zone: ForwardZone) returns (out': string)
    ensures out' == out + JoinLines(ForwardZoneLines(words)(zone))
  {
    hide Directive, Quote, Comment, ServerLines, JoinLines;
    var head :=
      ["", "# " + words(OnForwarding), "forward-zone:",
       Comment(words(OnSuffix)), Directive("name", Quote(zone.name))];
    var text := JoinLines(head);
    assert head + Flat(zone.servers[..0], ServerLines(words)) == head;
    for i := 0 to |zone.servers|
      invariant text == JoinLines(head + Flat(zone.servers[..i], ServerLines(words)))
    {
      Wrote(text, head, zone.servers, i, ServerLines(words));
      text := text + JoinLines(ServerLines(words)(zone.servers[i]));
    }
    assert zone.servers[..|zone.servers|] == zone.servers;
    var tail := [Comment(words(OnFallback)),
                 Directive("forward-first", YesNo(zone.forwardFirst))];
    JoinLinesConcat(head + Flat(zone.servers, ServerLines(words)), tail);
    assert head + Flat(zone.servers, ServerLines(words)) + tail == ForwardZoneLines(words)(zone);
    out' := out + (text + JoinLines(tail));
  }

  method Render(ip: Netip, words: Wording, s: Settings) returns (r: Option<string>)
    ensures r == Rendered(ip, words, s)
  {
    hide Valid, JoinLines, FixedEntries, EntryLines, PrivateDomainLines, OptInLines, PolicyLines, LocalZoneLines,
      ForwardZoneLines, ProfileSizes;
    var ok := Validate(ip, s);
    if !ok {
      return None;
    }
    ValidHasProfile(ip, s);
    ghost var head := HeadLines(words) + Flat(FixedEntries(s), EntryLines(words));
    var out := JoinLines(HeadLines(words) + Flat(FixedEntries(s), EntryLines(words)));
    assert head + Flat(s.privateDomains[..0], PrivateDomainLines(words)) == head;
    for i := 0 to |s.privateDomains|
      invariant out == JoinLines(head + Flat(s.privateDomains[..i], PrivateDomainLines(words)))
    {
      Wrote(out, head, s.privateDomains, i, PrivateDomainLines(words));
      out := out + JoinLines(PrivateDomainLines(words)(s.privateDomains[i]));
    }
    assert s.privateDomains[..|s.privateDomains|] == s.privateDomains;
    head := head + Flat(s.privateDomains, PrivateDomainLines(words));
    assert head + Flat(s.forwardZones[..0], OptInLines(words)) == head;
    for i := 0 to |s.forwardZones|
      invariant out == JoinLines(head + Flat(s.forwardZones[..i], OptInLines(words)))
    {
      Wrote(out, head, s.forwardZones, i, OptInLines(words));
      out := out + JoinLines(OptInLines(words)(s.forwardZones[i]));
    }
    assert s.forwardZones[..|s.forwardZones|] == s.forwardZones;
    head := head + Flat(s.forwardZones, OptInLines(words));
    assert head + Flat(s.reverseZones[..0], PolicyLines(words)) == head;
    for i := 0 to |s.reverseZones|
      invariant out == JoinLines(head + Flat(s.reverseZones[..i], PolicyLines(words)))
    {
      Wrote(out, head, s.reverseZones, i, PolicyLines(words));
      out := WritePolicy(out, words, s.reverseZones[i]);
    }
    assert s.reverseZones[..|s.reverseZones|] == s.reverseZones;
    head := head + Flat(s.reverseZones, PolicyLines(words));
    assert head + Flat(s.localZones[..0], LocalZoneLines(words)) == head;
    for i := 0 to |s.localZones|
      invariant out == JoinLines(head + Flat(s.localZones[..i], LocalZoneLines(words)))
    {
      Wrote(out, head, s.localZones, i, LocalZoneLines(words));
      out := WriteLocalZone(out, words, s.localZones[i]);
    }
    assert s.localZones[..|s.localZones|] == s.localZones;
    head := head + Flat(s.localZones, LocalZoneLines(words));
    assert head + Flat(s.forwardZones[..0], ForwardZoneLines(words)) == head;
    for i := 0 to |s.forwardZones|
      invariant out == JoinLines(head + Flat(s.forwardZones[..i], ForwardZoneLines(words)))
    {
      Wrote(out, head, s.forwardZones, i, ForwardZoneLines(words));
      out := WriteForwardZone(out, words, s.forwardZones[i]);
    }
    assert s.forwardZones[..|s.forwardZones|] == s.forwardZones;
    return Some(out);
  }

  lemma ValidHasProfile(ip: Netip, s: Settings)
    requires Valid(ip, s)
    ensures ProfileSizes(s.resourceProfile).Some?
  {
  }
}
