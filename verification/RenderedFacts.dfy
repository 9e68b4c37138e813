/**
  What a rendered settings record says, read with the parser: every single setting stands in the server block
  exactly once, with the value settings.go:482-516 writes for it.
 */
module UnboundRenderedFacts {
  import opened Text
  import opened Seqs
  import opened UnboundSettings
  import opened UnboundRender
  import opened UnboundParse
  import opened UnboundRenderedBlocks
  import opened UnboundExtract
  import opened UnboundGroups
  import opened UnboundImport
  import opened UnboundRenderedExtract
  import opened UnboundRenderedGroups
  import opened UnboundRenderedSweep
  import opened UnboundRoundTrip

  /** Exactly one directive of the server blocks has that key, and this is its value. */
  ghost predicate SaysOnce(blocks: seq<ParsedBlock>, key: string, value: string) {
    |Select(Items(blocks), KeyIs(key))| == 1 && Select(Items(blocks), KeyIs(key))[0].kv == KV(key, value)
  }

  /** The single settings, in the order in which they are written; the two log switches are none. */
  const WRITTEN_FIELDS: seq<Option<Field>> :=
    [Some(QnameMinimisation), Some(Prefetch), Some(PrefetchKey), Some(AggressiveNsec), Some(EdnsBufferSize),
     Some(Verbosity), None, None, Some(ServeExpired), Some(ServeExpiredTtl), Some(ServeExpiredClientTimeout),
     Some(CacheMinTtl), Some(CacheMaxTtl), Some(NumThreads)]

  lemma FieldsApart(j: nat, k: nat)
    requires j < k < 14 && !(j == 6 && k == 7)
    ensures |WRITTEN_FIELDS| == 14 && WRITTEN_FIELDS[j] != WRITTEN_FIELDS[k]
  {
  }

  lemma BehaviourFields(s: Settings)
    ensures |BehaviourEntries(s)| == 8
    ensures forall j | 0 <= j < 8 :: FieldOf(BehaviourEntries(s)[j].key) == WRITTEN_FIELDS[j]
    ensures BehaviourEntries(s)[6].key == "log-queries" && BehaviourEntries(s)[7].key == "log-replies"
  {
    hide FieldOf, YesNo, Itoa, UnguidedDisposition;
    SwitchKeys();
    NumberKeys();
    LogKeys();
  }

  lemma CacheFields(s: Settings)
    ensures |CacheEntries(s)| == 6
    ensures forall j | 0 <= j < 6 :: FieldOf(CacheEntries(s)[j].key) == WRITTEN_FIELDS[8 + j]
  {
    hide FieldOf, YesNo, Itoa;
    SwitchKeys();
    NumberKeys();
    MoreNumberKeys();
  }

  lemma SettingKeysApart(s: Settings)
    ensures var es := BehaviourEntries(s) + CacheEntries(s);
            |es| == 14 && forall j, k | 0 <= j < |es| && 0 <= k < |es| && j != k :: es[j].key != es[k].key
  {
    hide FieldOf, BehaviourEntries, CacheEntries;
    BehaviourFields(s);
    CacheFields(s);
    LogKeysDiffer();
    var es := BehaviourEntries(s) + CacheEntries(s);
    forall j: nat, k: nat | j < k < 14 ensures es[j].key != es[k].key {
      assert FieldOf(es[j].key) == WRITTEN_FIELDS[j] && FieldOf(es[k].key) == WRITTEN_FIELDS[k];
      if !(j == 6 && k == 7) {
        FieldsApart(j, k);
      }
    }
  }

  lemma LogKeysDiffer()
    ensures "log-queries" != "log-replies"
  {
    assert "log-queries"[4] != "log-replies"[4];
  }

  /** A single setting is written once, by its own entry. */
  lemma EntrySaid(blocks: seq<ParsedBlock>, s: Settings, i: nat)
    requires StatesSettings(blocks, s) && i < |BehaviourEntries(s) + CacheEntries(s)|
    ensures var e := (BehaviourEntries(s) + CacheEntries(s))[i]; SaysOnce(blocks, e.key, e.value)
  {
    hide StatesSettings, BehaviourEntries, CacheEntries, ServerKVs, Filter, Flat, ClassOf, Select, Items;
    var b, c := BehaviourEntries(s), CacheEntries(s);
    var es := b + c;
    var p := KeyIs(es[i].key);
    BehaviourClass(s);
    CacheClass(s);
    assert ClassOf(es[i].key) == Setting;
    StatedHasProfile(blocks, s);
    FilterSections(s, p, Setting);
    FlatConcat(b, c, EntryKV);
    SettingKeysApart(s);
    forall j | 0 <= j < |es| ensures Filter(EntryKV(es[j]), p) == if j == i then EntryKV(es[i]) else [] {
      FilterOne(KV(es[j].key, es[j].value), p);
    }
    FilterFlatOnly(es, EntryKV, p, i, EntryKV(es[i]));
    OnlyItem(blocks, s, p, EntryKV(es[i]));
  }

  lemma StatedHasProfile(blocks: seq<ParsedBlock>, s: Settings)
    requires StatesSettings(blocks, s)
    ensures ProfileSizes(s.resourceProfile).Some?
  {
  }

  // ---------- the single settings ----------

  function Word(value: bool): string { if value then "yes" else "no" }

  ghost predicate SaysBehaviour(blocks: seq<ParsedBlock>, s: Settings) {
    SaysOnce(blocks, "qname-minimisation", Word(s.qnameMinimisation)) &&
    SaysOnce(blocks, "prefetch", Word(s.prefetch)) &&
    SaysOnce(blocks, "prefetch-key", Word(s.prefetchKey)) &&
    SaysOnce(blocks, "aggressive-nsec", Word(s.aggressiveNsec)) &&
    SaysOnce(blocks, "edns-buffer-size", Itoa(s.ednsBufferSize)) &&
    SaysOnce(blocks, "verbosity", Itoa(s.logVerbosity)) &&
    SaysOnce(blocks, "log-queries", "no") &&
    SaysOnce(blocks, "log-replies", "no")
  }

  ghost predicate SaysCache(blocks: seq<ParsedBlock>, s: Settings) {
    SaysOnce(blocks, "serve-expired", Word(s.serveExpired)) &&
    SaysOnce(blocks, "serve-expired-ttl", Itoa(s.serveExpiredTtl)) &&
    SaysOnce(blocks, "serve-expired-client-timeout", Itoa(s.serveExpiredClientTimeout)) &&
    SaysOnce(blocks, "cache-min-ttl", Itoa(s.cacheMinTtl)) &&
    SaysOnce(blocks, "cache-max-ttl", Itoa(s.cacheMaxTtl)) &&
    SaysOnce(blocks, "num-threads", Itoa(s.threads))
  }

  ghost predicate SaysGroups(blocks: seq<ParsedBlock>, s: Settings) {
    SaysOnce(blocks, "do-ip4", if s.networkMode == "ipv6" then "no" else "yes") &&
    SaysOnce(blocks, "do-ip6", if s.networkMode == "ipv4" then "no" else "yes") &&
    SaysOnce(blocks, "prefer-ip6", if s.networkMode == "ipv6" then "yes" else "no") &&
    (s.resourceProfile == "small" ==>
       SaysOnce(blocks, "rrset-cache-size", "32m") && SaysOnce(blocks, "msg-cache-size", "16m")) &&
    (s.resourceProfile == "medium" ==>
       SaysOnce(blocks, "rrset-cache-size", "64m") && SaysOnce(blocks, "msg-cache-size", "32m")) &&
    (s.resourceProfile == "large" ==>
       SaysOnce(blocks, "rrset-cache-size", "128m") && SaysOnce(blocks, "msg-cache-size", "64m"))
  }

  lemma BehaviourSaid(blocks: seq<ParsedBlock>, s: Settings)
    requires StatesSettings(blocks, s)
    ensures SaysBehaviour(blocks, s)
  {
    hide StatesSettings, SaysOnce, Itoa, CacheEntries;
    var es := BehaviourEntries(s) + CacheEntries(s);
    forall i | 0 <= i < 8 ensures SaysOnce(blocks, es[i].key, es[i].value) { EntrySaid(blocks, s, i); }
    assert forall i | 0 <= i < 8 :: es[i] == BehaviourEntries(s)[i];
    assert es[0].key == "qname-minimisation" && es[1].key == "prefetch" && es[2].key == "prefetch-key";
    assert es[3].key == "aggressive-nsec" && es[4].key == "edns-buffer-size" && es[5].key == "verbosity";
    assert es[6] == Entry(None, "log-queries", "no") && es[7] == Entry(None, "log-replies", "no");
  }

  lemma CacheSaid(blocks: seq<ParsedBlock>, s: Settings)
    requires StatesSettings(blocks, s)
    ensures SaysCache(blocks, s)
  {
    hide StatesSettings, SaysOnce, Itoa;
    var es := BehaviourEntries(s) + CacheEntries(s);
    forall i | 8 <= i < 14 ensures SaysOnce(blocks, es[i].key, es[i].value) { EntrySaid(blocks, s, i); }
    assert forall i | 8 <= i < 14 :: es[i] == CacheEntries(s)[i - 8];
    assert es[8].key == "serve-expired" && es[9].key == "serve-expired-ttl";
    assert es[10].key == "serve-expired-client-timeout" && es[11].key == "cache-min-ttl";
    assert es[12].key == "cache-max-ttl" && es[13].key == "num-threads";
  }

  /** One line of a group, found by its key, is said once. */
  lemma GroupSaid(blocks: seq<ParsedBlock>, key: string)
    requires |Select(Items(blocks), KeyIs(key))| == 1
    ensures SaysOnce(blocks, key, Select(Items(blocks), KeyIs(key))[0].kv.value)
  {
    hide Select, Items;
    var found := Select(Items(blocks), KeyIs(key));
    SelectMember(Items(blocks), KeyIs(key), found[0]);
  }

  lemma GroupsSaid(blocks: seq<ParsedBlock>, s: Settings)
    requires StatesSettings(blocks, s)
    ensures SaysGroups(blocks, s)
  {
    hide StatesSettings, SaysOnce, Select, Items;
    ModeItem(blocks, s, "do-ip4");
    GroupSaid(blocks, "do-ip4");
    ModeItem(blocks, s, "do-ip6");
    GroupSaid(blocks, "do-ip6");
    ModeItem(blocks, s, "prefer-ip6");
    GroupSaid(blocks, "prefer-ip6");
    StatedHasProfile(blocks, s);
    ProfileItem(blocks, s, "rrset-cache-size");
    GroupSaid(blocks, "rrset-cache-size");
    ProfileItem(blocks, s, "msg-cache-size");
    GroupSaid(blocks, "msg-cache-size");
  }

  /** Each single setting stands in the rendered text exactly once, with the value of the record. */
  lemma RenderedSettings(ip: Netip, words: Wording, s: Settings)
    requires OneLineRemarks(words) && Valid(ip, s) && PlainLiterals(s)
    ensures var blocks := Blocks(TextOf(ip, words, s));
            SaysBehaviour(blocks, s) && SaysCache(blocks, s) && SaysGroups(blocks, s)
  {
    hide *;
    TextReads(ip, words, s);
    var blocks := Blocks(TextOf(ip, words, s));
    BehaviourSaid(blocks, s);
    CacheSaid(blocks, s);
    GroupsSaid(blocks, s);
  }

  /** No rendered record lets the daemon log what is asked or answered. */
  lemma NeverLogsQueries(ip: Netip, words: Wording, s: Settings)
    requires OneLineRemarks(words) && Valid(ip, s) && PlainLiterals(s)
    ensures var items := Items(Blocks(TextOf(ip, words, s)));
            |Select(items, KeyIs("log-queries"))| == 1 && |Select(items, KeyIs("log-replies"))| == 1 &&
            Select(items, KeyIs("log-queries"))[0].kv.value == "no" &&
            Select(items, KeyIs("log-replies"))[0].kv.value == "no"
  {
    hide TextOf, Blocks, Select, Items, Valid, PlainLiterals, OneLineRemarks;
    RenderedSettings(ip, words, s);
  }

  // ---------- opt-ins, private domains and local data ----------

  /** The directives of the server block, which is the first one. */
  ghost function ServerLines(ip: Netip, words: Wording, s: Settings): seq<KV>
    requires |Blocks(TextOf(ip, words, s))| > 0
  {
    KVs(Blocks(TextOf(ip, words, s))[0].directives)
  }

  lemma {:induction false} InFlat<T>(xs: seq<T>, f: T -> seq<KV>, kv: KV)
    ensures kv in Flat(xs, f) <==> exists i | 0 <= i < |xs| :: kv in f(xs[i])
  {
    if i :| 0 <= i < |xs| && kv in f(xs[i]) {
      FlatMember(xs, f, i);
    }
    if kv in Flat(xs, f) {
      var k :| 0 <= k < |Flat(xs, f)| && Flat(xs, f)[k] == kv;
      var j, m := FlatOrigin(xs, f, k);
      assert kv in f(xs[j]);
    }
  }

  lemma NotOfClass(kvs: seq<KV>, c: KeyClass, kv: KV)
    requires AllOf(kvs, c)
    ensures kv in kvs ==> ClassOf(kv.key) == c
  {
    hide ClassOf;
  }

  /** A line is in the section of its class. */
  lemma InSection(s: Settings, kv: KV)
    requires ProfileSizes(s.resourceProfile).Some?
    ensures ClassOf(kv.key) == ScopedKey ==> (kv in ServerKVs(s) <==> kv in Scoped(s))
    ensures ClassOf(kv.key) == LocalKey ==> (kv in ServerKVs(s) <==> kv in Locals(s))
    ensures ClassOf(kv.key) == Setting ==> (kv in ServerKVs(s) <==> kv in Head(s))
  {
    hide *;
    SectionsInOrder(s);
    SectionClasses(s);
    GroupsAre(s);
    var b, m := Flat(ProfileEntries(s), EntryKV), Flat(NetworkEntries(s), EntryKV);
    NotOfClass(Head(s), Setting, kv);
    NotOfClass(b, ProfileKey, kv);
    NotOfClass(m, ModeKey, kv);
    NotOfClass(Scoped(s), ScopedKey, kv);
    NotOfClass(Locals(s), LocalKey, kv);
    assert kv in ServerKVs(s) <==>
      kv in Head(s) || kv in b || kv in m || kv in Scoped(s) || kv in Locals(s);
  }

  /** A forward zone of that name has the opt-in. */
  ghost predicate OptedIn(zones: seq<ForwardZone>, name: string, unsigned: bool) {
    exists i | 0 <= i < |zones| ::
      zones[i].name == name && if unsigned then zones[i].allowUnsigned else zones[i].allowPrivateAddresses
  }

  lemma OptInKeys(zones: seq<ForwardZone>, name: string)
    ensures KV("domain-insecure", name) in Flat(zones, OptInKV) <==> OptedIn(zones, name, true)
    ensures KV("private-domain", name) in Flat(zones, OptInKV) <==> OptedIn(zones, name, false)
  {
    hide Flat;
    ScopedKeysDiffer();
    InFlat(zones, OptInKV, KV("domain-insecure", name));
    InFlat(zones, OptInKV, KV("private-domain", name));
  }

  lemma ScopedKeysDiffer()
    ensures "domain-insecure" != "private-domain"
  {
    assert "domain-insecure"[0] != "private-domain"[0];
  }

  lemma PrivateKeys(domains: seq<string>, name: string)
    ensures KV("domain-insecure", name) !in Flat(domains, PrivateKV)
    ensures KV("private-domain", name) in Flat(domains, PrivateKV) <==> name in domains
  {
    hide Flat;
    ScopedKeysDiffer();
    InFlat(domains, PrivateKV, KV("domain-insecure", name));
    InFlat(domains, PrivateKV, KV("private-domain", name));
  }

  /** DNSSEC is waived, and private answers are let through, for exactly the names the record says. */
  lemma RenderedOptIns(ip: Netip, words: Wording, s: Settings, name: string)
    requires OneLineRemarks(words) && Valid(ip, s) && PlainLiterals(s)
    ensures |Blocks(TextOf(ip, words, s))| > 0
    ensures KV("domain-insecure", name) in ServerLines(ip, words, s) <==> OptedIn(s.forwardZones, name, true)
    ensures KV("private-domain", name) in ServerLines(ip, words, s) <==>
            name in s.privateDomains || OptedIn(s.forwardZones, name, false)
  {
    hide Valid, PlainLiterals, OneLineRemarks, Blocks, TextOf, ServerKVs, Flat, ClassOf, OptedIn, ProfileSizes, KVs;
    TextReads(ip, words, s);
    ScopedLiterals();
    InSection(s, KV("domain-insecure", name));
    InSection(s, KV("private-domain", name));
    PrivateKeys(s.privateDomains, name);
    OptInKeys(s.forwardZones, name);
  }

  /** The records settings.go:540-557 writes for a host: forward data and, if asked for, the PTR data. */
  ghost predicate SaysHost(lines: seq<KV>, zone: string, host: LocalHost) {
    (host.ipv4 != "" ==> KV("local-data", host.hostname + "." + zone + " IN A " + host.ipv4) in lines) &&
    (host.ipv6 != "" ==> KV("local-data", host.hostname + "." + zone + " IN AAAA " + host.ipv6) in lines) &&
    (host.ptr && host.ipv4 != "" ==>
       KV("local-data-ptr", host.ipv4 + " " + TrimSuffix(host.hostname + "." + zone, ".")) in lines) &&
    (host.ptr && host.ipv6 != "" ==>
       KV("local-data-ptr", host.ipv6 + " " + TrimSuffix(host.hostname + "." + zone, ".")) in lines)
  }

  lemma HostSaid(zone: string, host: LocalHost)
    ensures SaysHost(HostKV(zone)(host), zone, host)
  {
    hide DataValue;
    DataValues(zone, host);
  }

  lemma SaidInMore(a: seq<KV>, b: seq<KV>, zone: string, host: LocalHost)
    requires SaysHost(a, zone, host) && forall kv | kv in a :: kv in b
    ensures SaysHost(b, zone, host)
  {
  }

  lemma ZoneInLocals(s: Settings, i: nat, kv: KV)
    requires i < |s.localZones| && kv in LocalKV(s.localZones[i])
    ensures kv in Locals(s)
  {
    hide LocalKV, Flat;
    FlatMember(s.localZones, LocalKV, i);
  }

  lemma PolicyInLocals(s: Settings, i: nat, kv: KV)
    requires i < |s.reverseZones| && kv in PolicyKV(s.reverseZones[i])
    ensures kv in Locals(s)
  {
    hide PolicyKV, Flat;
    FlatMember(s.reverseZones, PolicyKV, i);
  }

  /** A local zone is served statically, with the records of all of its hosts. */
  lemma RenderedHosts(ip: Netip, words: Wording, s: Settings, i: nat, k: nat)
    requires OneLineRemarks(words) && Valid(ip, s) && PlainLiterals(s)
    requires i < |s.localZones| && k < |s.localZones[i].hosts|
    ensures |Blocks(TextOf(ip, words, s))| > 0
    ensures KV("local-zone", "\"" + s.localZones[i].name + "\" static") in ServerLines(ip, words, s)
    ensures SaysHost(ServerLines(ip, words, s), s.localZones[i].name, s.localZones[i].hosts[k])
  {
    hide Valid, PlainLiterals, OneLineRemarks, Blocks, TextOf, ServerKVs, Flat, ClassOf, ProfileSizes, KVs, Locals,
      SaysHost, HostKV;
    TextReads(ip, words, s);
    ScopedLiterals();
    var zone := s.localZones[i];
    HostSaid(zone.name, zone.hosts[k]);
    FlatMember(zone.hosts, HostKV(zone.name), k);
    HostClass(zone.name, zone.hosts[k]);
    var header := KV("local-zone", "\"" + zone.name + "\" static");
    assert "\"" + zone.name + "\" " + "static" == "\"" + zone.name + "\" static";
    assert LocalKV(zone)[0] == header;
    ZoneInLocals(s, i, header);
    InSection(s, header);
    forall kv | kv in HostKV(zone.name)(zone.hosts[k]) ensures kv in ServerKVs(s) {
      assert kv in LocalKV(zone);
      ZoneInLocals(s, i, kv);
      InSection(s, kv);
    }
    SaidInMore(HostKV(zone.name)(zone.hosts[k]), ServerKVs(s), zone.name, zone.hosts[k]);
  }

  /** Every reverse zone of a network with a policy is blocked or left open as the policy says. */
  lemma RenderedPolicies(ip: Netip, words: Wording, s: Settings, i: nat, k: nat)
    requires OneLineRemarks(words) && Valid(ip, s) && PlainLiterals(s)
    requires i < |s.reverseZones| && k < |ReverseNames(s.reverseZones[i].network)|
    ensures |Blocks(TextOf(ip, words, s))| > 0
    ensures KV("local-zone", "\"" + ReverseNames(s.reverseZones[i].network)[k] + "\" " +
                             (if s.reverseZones[i].mode == "nxdomain" then "static" else "transparent"))
            in ServerLines(ip, words, s)
  {
    hide Valid, PlainLiterals, OneLineRemarks, Blocks, TextOf, ServerKVs, Flat, ClassOf, ProfileSizes, KVs, Locals,
      ReverseNames;
    TextReads(ip, words, s);
    ScopedLiterals();
    var p := s.reverseZones[i];
    ValidMode(ip, s, i);
    var name := ReverseNames(p.network)[k];
    var kv := KV("local-zone", ZoneValue(name, ReverseZoneType(p.mode)));
    FlatMember(ReverseNames(p.network), ReverseKV(p.mode), k);
    assert kv in ReverseKV(p.mode)(name);
    PolicyInLocals(s, i, kv);
    InSection(s, kv);
  }

  lemma ValidMode(ip: Netip, s: Settings, i: nat)
    requires Valid(ip, s) && i < |s.reverseZones|
    ensures s.reverseZones[i].mode == "nxdomain" || s.reverseZones[i].mode == "transparent"
  {
    assert ValidPolicy(s.reverseZones[i]);
  }

  // ---------- the clauses after it, and nothing else ----------

  /** The reverse zones of the three RFC 1918 networks. */
  lemma ReverseNamesAre()
    ensures ReverseNames("10.0.0.0/8") == ["10.in-addr.arpa."]
    ensures ReverseNames("192.168.0.0/16") == ["168.192.in-addr.arpa."]
    ensures |ReverseNames("172.16.0.0/12")| == 16
    ensures forall i | 0 <= i < 16 :: ReverseNames("172.16.0.0/12")[i] == Itoa(16 + i) + ".172.in-addr.arpa."
  {
  }

  const SETTING_KEYS: seq<string> :=
    ["qname-minimisation", "prefetch", "prefetch-key", "aggressive-nsec", "edns-buffer-size", "verbosity",
     "log-queries", "log-replies", "serve-expired", "serve-expired-ttl", "serve-expired-client-timeout",
     "cache-min-ttl", "cache-max-ttl", "num-threads"]

  const OTHER_KEYS: seq<string> :=
    ["rrset-cache-size", "msg-cache-size", "do-ip4", "do-ip6", "prefer-ip6", "private-domain", "domain-insecure",
     "local-zone", "local-data", "local-data-ptr"]

  lemma HeadKeys(s: Settings, kv: KV)
    requires kv in Head(s)
    ensures kv.key in SETTING_KEYS
  {
    hide Flat, YesNo, Itoa;
    InFlat(BehaviourEntries(s), EntryKV, kv);
    InFlat(CacheEntries(s), EntryKV, kv);
    BehaviourKeys(s);
    CacheKeys(s);
  }

  lemma BehaviourKeys(s: Settings)
    ensures forall i | 0 <= i < |BehaviourEntries(s)| :: BehaviourEntries(s)[i].key in SETTING_KEYS
  {
    var es := BehaviourEntries(s);
    forall i | 0 <= i < |es| ensures es[i].key in SETTING_KEYS { assert es[i].key == SETTING_KEYS[i]; }
  }

  lemma CacheKeys(s: Settings)
    ensures forall i | 0 <= i < |CacheEntries(s)| :: CacheEntries(s)[i].key in SETTING_KEYS
  {
    var es := CacheEntries(s);
    forall i | 0 <= i < |es| ensures es[i].key in SETTING_KEYS { assert es[i].key == SETTING_KEYS[i + 8]; }
  }

  lemma OtherKeys(key: string)
    requires ClassOf(key) != Setting
    ensures key in OTHER_KEYS
  {
    assert OTHER_KEYS[0] == "rrset-cache-size" && OTHER_KEYS[1] == "msg-cache-size" && OTHER_KEYS[2] == "do-ip4";
    assert OTHER_KEYS[3] == "do-ip6" && OTHER_KEYS[4] == "prefer-ip6" && OTHER_KEYS[5] == "private-domain";
    assert OTHER_KEYS[6] == "domain-insecure" && OTHER_KEYS[7] == "local-zone" && OTHER_KEYS[8] == "local-data";
    assert OTHER_KEYS[9] == "local-data-ptr";
  }

  /** The server block has no directive of any other key. */
  lemma RenderedKeys(ip: Netip, words: Wording, s: Settings)
    requires OneLineRemarks(words) && Valid(ip, s) && PlainLiterals(s)
    ensures |Blocks(TextOf(ip, words, s))| > 0 && Blocks(TextOf(ip, words, s))[0].section == "server"
    ensures forall kv | kv in ServerLines(ip, words, s) :: kv.key in SETTING_KEYS || kv.key in OTHER_KEYS
  {
    hide Valid, PlainLiterals, OneLineRemarks, Blocks, TextOf, ServerKVs, ClassOf, ProfileSizes, KVs, Head;
    TextReads(ip, words, s);
    forall kv | kv in ServerLines(ip, words, s) ensures kv.key in SETTING_KEYS || kv.key in OTHER_KEYS {
      if ClassOf(kv.key) == Setting {
        InSection(s, kv);
        HeadKeys(s, kv);
      } else {
        OtherKeys(kv.key);
      }
    }
  }

  /** The clause of a forward zone: its name, its servers in order, and whether it falls back. */
  ghost predicate SaysForward(block: ParsedBlock, zone: ForwardZone) {
    var kvs, n := KVs(block.directives), |zone.servers|;
    block.section == "forward-zone" && |kvs| == n + 2 && kvs[0] == KV("name", zone.name) &&
    (forall k | 0 <= k < n :: kvs[1 + k] == KV("forward-addr", zone.servers[k])) &&
    kvs[n + 1] == KV("forward-first", Word(zone.forwardFirst))
  }

  lemma {:induction false} ServersAt(servers: seq<string>)
    ensures |Flat(servers, ServerKV)| == |servers|
    ensures forall k | 0 <= k < |servers| :: Flat(servers, ServerKV)[k] == KV("forward-addr", servers[k])
  {
    if servers != [] {
      ServersAt(servers[..|servers| - 1]);
    }
  }

  /** After the server block come the forward zones, one clause each, and nothing else. */
  lemma RenderedForwards(ip: Netip, words: Wording, s: Settings)
    requires OneLineRemarks(words) && Valid(ip, s) && PlainLiterals(s)
    ensures var blocks := Blocks(TextOf(ip, words, s));
            |blocks| == 1 + |s.forwardZones| &&
            forall i | 0 <= i < |s.forwardZones| :: SaysForward(blocks[1 + i], s.forwardZones[i])
  {
    hide Valid, PlainLiterals, OneLineRemarks, Blocks, TextOf, ServerKVs, ProfileSizes, KVs, Flat;
    TextReads(ip, words, s);
    var blocks := Blocks(TextOf(ip, words, s));
    forall i | 0 <= i < |s.forwardZones| ensures SaysForward(blocks[1 + i], s.forwardZones[i]) {
      assert blocks[1..][i] == blocks[1 + i];
      ServersAt(s.forwardZones[i].servers);
    }
  }
}
