/**
  What each extractor finds in blocks that state a settings record, and which directives it consumes.
 */
module UnboundRenderedExtract {
  import opened Text
  import opened Seqs
  import opened UnboundSettings
  import opened UnboundRender
  import opened UnboundParse
  import opened UnboundRenderedBlocks
  import opened UnboundExtract
  import opened UnboundGroups

  // ---------- forward zones ----------

  /** A zone as its own clause states it: without the opt-ins, which the server clause carries. */
  function Bare(zone: ForwardZone): ForwardZone { zone.(allowUnsigned := false, allowPrivateAddresses := false) }

  lemma {:induction false} DraftServers(head: seq<KV>, servers: seq<string>)
    ensures DraftOf(head + Flat(servers, ServerKV)) ==
            DraftOf(head).(zone := DraftOf(head).zone.(servers := DraftOf(head).zone.servers + servers))
  {
    if servers == [] {
      assert head + Flat(servers, ServerKV) == head;
    } else {
      var n := |servers| - 1;
      DraftServers(head, servers[..n]);
      var before := head + Flat(servers[..n], ServerKV);
      var kv := KV("forward-addr", servers[n]);
      assert head + Flat(servers, ServerKV) == before + [kv];
      assert (before + [kv])[..|before|] == before;
      assert servers[..n] + [servers[n]] == servers;
    }
  }

  lemma DraftOfForward(zone: ForwardZone)
    ensures DraftOf(ForwardKV(zone)) == Draft(Bare(zone), true)
  {
    hide ServerKV;
    var head := [KV("name", zone.name)];
    assert head[..0] == [];
    assert DraftOf(head) == DraftStep(EMPTY_DRAFT, head[0]);
    DraftServers(head, zone.servers);
    var before := head + Flat(zone.servers, ServerKV);
    var last := KV("forward-first", YesNo(zone.forwardFirst));
    assert ForwardKV(zone) == before + [last];
    assert (before + [last])[..|before|] == before;
    assert [] + zone.servers == zone.servers;
    assert ToLower(last.value) == last.value;
  }

  lemma ForwardBlockMaps(ip: Netip, block: ParsedBlock, zone: ForwardZone)
    requires ValidForwardZone(ip, zone) && block.section == "forward-zone" && KVs(block.directives) == ForwardKV(zone)
    ensures MappedZone(ip, block) == Some(Bare(zone))
  {
    hide ValidZoneName, ValidServer, DraftOf, ForwardKV;
    DraftOfForward(zone);
    forall i | 0 <= i < |zone.servers| ensures ValidServer(ip, zone.servers[i]) {
      assert zone.servers[i] in zone.servers;
    }
    assert zone.name != "" by { NamesAreNotEmpty(zone.name); }
  }

  lemma NamesAreNotEmpty(name: string)
    requires ValidZoneName(name)
    ensures name != ""
  {
  }

  lemma {:induction false} MappedForwards(ip: Netip, blocks: seq<ParsedBlock>, zones: seq<ForwardZone>)
    requires StatesZones(blocks, zones) && forall i | 0 <= i < |zones| :: ValidForwardZone(ip, zones[i])
    ensures MappedZones(ip, blocks) == Map(zones, Bare)
  {
    hide ValidForwardZone, MappedZone, KVs, ForwardKV;
    if zones != [] {
      var n := |zones| - 1;
      MappedForwards(ip, blocks[..n], zones[..n]);
      ForwardBlockMaps(ip, blocks[n], zones[n]);
      assert Map(zones, Bare) == Map(zones[..n], Bare) + [Bare(zones[n])];
    }
  }

  /** The zones extracted are the record's zones without their opt-ins; the server block is not mapped. */
  lemma ZonesOfStated(ip: Netip, blocks: seq<ParsedBlock>, s: Settings)
    requires StatesSettings(blocks, s) && ValidForwardZones(ip, s.forwardZones)
    ensures MappedZones(ip, blocks) == Map(s.forwardZones, Bare)
    ensures MappedZone(ip, blocks[0]).None?
    ensures forall b | 1 <= b < |blocks| :: MappedZone(ip, blocks[b]).Some?
  {
    hide ValidForwardZone, KVs, ForwardKV, ServerKVs, DraftOf, CleanZone, ProfileSizes;
    MappedForwards(ip, blocks[1..], s.forwardZones);
    FlatHead(blocks, MappedZoneList(ip));
    assert MappedZone(ip, blocks[0]).None?;
    assert MappedZoneList(ip)(blocks[0]) == [];
    forall b | 1 <= b < |blocks| ensures MappedZone(ip, blocks[b]).Some? {
      assert blocks[1..][b - 1] == blocks[b];
      ForwardBlockMaps(ip, blocks[b], s.forwardZones[b - 1]);
    }
  }

  // ---------- the items of the server block ----------

  function ItemKV(it: Item): KV { it.kv }

  lemma {:induction false} ItemsOfStated(blocks: seq<ParsedBlock>, b: nat)
    requires 1 <= b <= |blocks| && blocks[0].section == "server"
    requires forall k | 1 <= k < |blocks| :: blocks[k].section == "forward-zone"
    ensures ServerItems(blocks, b) == BlockItems(blocks[0], 0, |blocks[0].directives|)
  {
    if b == 1 {
      assert ServerItems(blocks, 0) == [];
    } else {
      ItemsOfStated(blocks, b - 1);
    }
  }

  /** The items carry exactly the directives of the record. */
  lemma ItemKVs(blocks: seq<ParsedBlock>, s: Settings)
    requires StatesSettings(blocks, s)
    ensures Map(Items(blocks), ItemKV) == ServerKVs(s)
    ensures forall k | 1 <= k < |blocks| :: blocks[k].section == "forward-zone"
  {
    hide ServerKVs, ForwardKV, ServerItems, ProfileSizes;
    forall k | 1 <= k < |blocks| ensures blocks[k].section == "forward-zone" {
      assert blocks[1..][k - 1] == blocks[k];
    }
    ItemsOfStated(blocks, |blocks|);
    assert Map(BlockItems(blocks[0], 0, |blocks[0].directives|), ItemKV) == KVs(blocks[0].directives);
  }

  function Filter(kvs: seq<KV>, p: KV -> bool): seq<KV> {
    if kvs == [] then [] else Filter(kvs[..|kvs| - 1], p) + (if p(kvs[|kvs| - 1]) then [kvs[|kvs| - 1]] else [])
  }

  lemma {:induction false} SelectView(items: seq<Item>, p: KV -> bool)
    ensures Map(Select(items, p), ItemKV) == Filter(Map(items, ItemKV), p)
  {
    if items != [] {
      var n := |items| - 1;
      SelectView(items[..n], p);
      assert Map(items, ItemKV)[..n] == Map(items[..n], ItemKV);
      assert Map(items, ItemKV)[n] == items[n].kv;
    }
  }

  lemma {:induction false} FilterConcat(a: seq<KV>, b: seq<KV>, p: KV -> bool)
    ensures Filter(a + b, p) == Filter(a, p) + Filter(b, p)
  {
    if b == [] {
      assert a + b == a;
    } else {
      var n := |b| - 1;
      FilterConcat(a, b[..n], p);
      assert (a + b)[..|a| + n] == a + b[..n] && (a + b)[|a| + n] == b[n];
      Associative(Filter(a, p), Filter(b[..n], p), if p(b[n]) then [b[n]] else []);
    }
  }

  lemma {:induction false} FilterNone(kvs: seq<KV>, p: KV -> bool)
    requires forall i | 0 <= i < |kvs| :: !p(kvs[i])
    ensures Filter(kvs, p) == []
  {
    if kvs != [] {
      FilterNone(kvs[..|kvs| - 1], p);
    }
  }

  lemma FilterOne(kv: KV, p: KV -> bool)
    ensures Filter([kv], p) == if p(kv) then [kv] else []
  {
    assert [kv][..0] == [];
    assert Filter([], p) == [];
  }

  // ---------- classes of keys ----------

  datatype KeyClass = Setting | ModeKey | ProfileKey | ScopedKey | LocalKey

  function ClassOf(key: string): KeyClass {
    if IsModeKey(key) then ModeKey
    else if IsProfileKey(key) then ProfileKey
    else if key == "domain-insecure" || key == "private-domain" then ScopedKey
    else if key == "local-zone" || key == "local-data" || key == "local-data-ptr" then LocalKey
    else Setting
  }

  /** Every directive of the sequence has a key of that class. */
  ghost predicate AllOf(kvs: seq<KV>, c: KeyClass) { forall i | 0 <= i < |kvs| :: ClassOf(kvs[i].key) == c }

  lemma AllOfConcat(a: seq<KV>, b: seq<KV>, c: KeyClass)
    requires AllOf(a, c) && AllOf(b, c)
    ensures AllOf(a + b, c)
  {
    hide ClassOf;
  }

  lemma {:induction false} AllOfFlat<T>(xs: seq<T>, f: T -> seq<KV>, c: KeyClass)
    requires forall i | 0 <= i < |xs| :: AllOf(f(xs[i]), c)
    ensures AllOf(Flat(xs, f), c)
  {
    hide AllOf;
    if xs == [] {
      NoneOfAny(c);
    } else {
      var n := |xs| - 1;
      AllOfFlat(xs[..n], f, c);
      AllOfConcat(Flat(xs[..n], f), f(xs[n]), c);
    }
  }

  lemma NoneOfAny(c: KeyClass)
    ensures AllOf([], c)
  {
  }

  ghost predicate EntriesOf(entries: seq<Entry>, c: KeyClass) {
    forall i | 0 <= i < |entries| :: ClassOf(entries[i].key) == c
  }

  lemma EntryClass(entries: seq<Entry>, c: KeyClass)
    requires EntriesOf(entries, c)
    ensures AllOf(Flat(entries, EntryKV), c)
  {
    hide ClassOf;
    forall i | 0 <= i < |entries| ensures AllOf(EntryKV(entries[i]), c) {
    }
    AllOfFlat(entries, EntryKV, c);
  }

  lemma BehaviourClass(s: Settings)
    ensures EntriesOf(BehaviourEntries(s), Setting)
  {
  }

  lemma CacheClass(s: Settings)
    ensures EntriesOf(CacheEntries(s), Setting)
  {
  }

  lemma ProfileClass(s: Settings)
    requires ProfileSizes(s.resourceProfile).Some?
    ensures EntriesOf(ProfileEntries(s), ProfileKey)
  {
  }

  lemma NetworkClass(s: Settings)
    ensures EntriesOf(NetworkEntries(s), ModeKey)
  {
  }

  lemma ScopedClasses(s: Settings)
    ensures AllOf(Flat(s.privateDomains, PrivateKV), ScopedKey)
    ensures AllOf(Flat(s.forwardZones, OptInKV), ScopedKey)
  {
    ScopedLiterals();
    forall i | 0 <= i < |s.privateDomains| ensures AllOf(PrivateKV(s.privateDomains[i]), ScopedKey) { hide ClassOf; }
    AllOfFlat(s.privateDomains, PrivateKV, ScopedKey);
    forall i | 0 <= i < |s.forwardZones| ensures AllOf(OptInKV(s.forwardZones[i]), ScopedKey) { hide ClassOf; }
    AllOfFlat(s.forwardZones, OptInKV, ScopedKey);
  }

  lemma ScopedLiterals()
    ensures ClassOf("private-domain") == ScopedKey && ClassOf("domain-insecure") == ScopedKey
    ensures ClassOf("local-zone") == LocalKey && ClassOf("local-data") == LocalKey &&
            ClassOf("local-data-ptr") == LocalKey
    ensures ClassOf("do-ip4") == ModeKey && ClassOf("do-ip6") == ModeKey && ClassOf("prefer-ip6") == ModeKey
    ensures ClassOf("rrset-cache-size") == ProfileKey && ClassOf("msg-cache-size") == ProfileKey
  {
  }

  lemma LocalClasses(s: Settings)
    ensures AllOf(Flat(s.reverseZones, PolicyKV), LocalKey)
    ensures AllOf(Flat(s.localZones, LocalKV), LocalKey)
  {
    ScopedLiterals();
    hide ClassOf, ReverseNames, ZoneValue, DataValue, PtrValue;
    forall i | 0 <= i < |s.reverseZones| ensures AllOf(PolicyKV(s.reverseZones[i]), LocalKey) {
      var p := s.reverseZones[i];
      forall k | 0 <= k < |ReverseNames(p.network)|
        ensures AllOf(ReverseKV(p.mode)(ReverseNames(p.network)[k]), LocalKey)
      {
      }
      AllOfFlat(ReverseNames(p.network), ReverseKV(p.mode), LocalKey);
    }
    AllOfFlat(s.reverseZones, PolicyKV, LocalKey);
    forall i | 0 <= i < |s.localZones| ensures AllOf(LocalKV(s.localZones[i]), LocalKey) {
      LocalZoneClass(s.localZones[i]);
    }
    AllOfFlat(s.localZones, LocalKV, LocalKey);
  }

  lemma LocalZoneClass(zone: LocalZone)
    ensures AllOf(LocalKV(zone), LocalKey)
  {
    ScopedLiterals();
    hide ClassOf, ZoneValue;
    forall k | 0 <= k < |zone.hosts| ensures AllOf(HostKV(zone.name)(zone.hosts[k]), LocalKey) {
      HostClass(zone.name, zone.hosts[k]);
    }
    AllOfFlat(zone.hosts, HostKV(zone.name), LocalKey);
    AllOfConcat([KV("local-zone", ZoneValue(zone.name, "static"))], Flat(zone.hosts, HostKV(zone.name)), LocalKey);
  }

  lemma HostClass(zoneName: string, host: LocalHost)
    ensures AllOf(HostKV(zoneName)(host), LocalKey)
    ensures forall i | 0 <= i < |HostKV(zoneName)(host)| :: IsData(HostKV(zoneName)(host)[i])
  {
    ScopedLiterals();
    hide ClassOf, DataValue, PtrValue;
  }

  // ---------- sections of the server block ----------

  /** The settings directives, then profile and mode, then the scoped lines, then the local zones. */
  ghost function Head(s: Settings): seq<KV> {
    Flat(BehaviourEntries(s), EntryKV) + Flat(CacheEntries(s), EntryKV)
  }

  ghost function Scoped(s: Settings): seq<KV> { Flat(s.privateDomains, PrivateKV) + Flat(s.forwardZones, OptInKV) }

  ghost function Groups(s: Settings): seq<KV>
    requires ProfileSizes(s.resourceProfile).Some?
  {
    Flat(ProfileEntries(s), EntryKV) + Flat(NetworkEntries(s), EntryKV)
  }

  ghost function Locals(s: Settings): seq<KV> { Flat(s.reverseZones, PolicyKV) + Flat(s.localZones, LocalKV) }

  /** The server block is these sections, in this order. */
  lemma SectionsInOrder(s: Settings)
    requires ProfileSizes(s.resourceProfile).Some?
    ensures ServerKVs(s) == Head(s) + Groups(s) + Scoped(s) + Locals(s)
  {
    hide BehaviourEntries, CacheEntries, ProfileEntries, NetworkEntries, EntryKV, PrivateKV, OptInKV, PolicyKV,
      LocalKV, ProfileSizes, Flat;
    var b, c, p, n := BehaviourEntries(s), CacheEntries(s), ProfileEntries(s), NetworkEntries(s);
    FlatConcat(b, c, EntryKV);
    FlatConcat(b + c, p, EntryKV);
    FlatConcat(b + c + p, n, EntryKV);
  }

  /** Each section holds directives of one class. */
  lemma SectionClasses(s: Settings)
    requires ProfileSizes(s.resourceProfile).Some?
    ensures AllOf(Head(s), Setting) && AllOf(Scoped(s), ScopedKey) && AllOf(Locals(s), LocalKey)
    ensures AllOf(Flat(ProfileEntries(s), EntryKV), ProfileKey) && AllOf(Flat(NetworkEntries(s), EntryKV), ModeKey)
  {
    hide AllOf, BehaviourEntries, CacheEntries, ProfileEntries, NetworkEntries, EntryKV, PrivateKV, OptInKV, PolicyKV,
      LocalKV, ProfileSizes, EntriesOf, Flat;
    BehaviourClass(s);
    CacheClass(s);
    ProfileClass(s);
    NetworkClass(s);
    EntryClass(BehaviourEntries(s), Setting);
    EntryClass(CacheEntries(s), Setting);
    EntryClass(ProfileEntries(s), ProfileKey);
    EntryClass(NetworkEntries(s), ModeKey);
    ScopedClasses(s);
    LocalClasses(s);
    AllOfConcat(Flat(BehaviourEntries(s), EntryKV), Flat(CacheEntries(s), EntryKV), Setting);
    AllOfConcat(Flat(s.privateDomains, PrivateKV), Flat(s.forwardZones, OptInKV), ScopedKey);
    AllOfConcat(Flat(s.reverseZones, PolicyKV), Flat(s.localZones, LocalKV), LocalKey);
  }

  lemma FilterOutside(kvs: seq<KV>, c: KeyClass, p: KV -> bool)
    requires AllOf(kvs, c) && forall kv :: p(kv) ==> ClassOf(kv.key) != c
    ensures Filter(kvs, p) == []
  {
    hide ClassOf;
    FilterNone(kvs, p);
  }

  lemma FilterSections(s: Settings, p: KV -> bool, c: KeyClass)
    requires ProfileSizes(s.resourceProfile).Some?
    requires forall kv :: p(kv) ==> ClassOf(kv.key) == c
    ensures c == Setting ==> Filter(ServerKVs(s), p) == Filter(Head(s), p)
    ensures c == ProfileKey ==> Filter(ServerKVs(s), p) == Filter(Flat(ProfileEntries(s), EntryKV), p)
    ensures c == ModeKey ==> Filter(ServerKVs(s), p) == Filter(Flat(NetworkEntries(s), EntryKV), p)
    ensures c == LocalKey ==> Filter(ServerKVs(s), p) == Filter(Locals(s), p)
  {
    hide *;
    SectionsInOrder(s);
    SectionClasses(s);
    GroupsAre(s);
    var a, b, d, e, f := Head(s), Flat(ProfileEntries(s), EntryKV), Flat(NetworkEntries(s), EntryKV), Scoped(s),
      Locals(s);
    FilterFive(a, b, d, e, f, p);
    OnlyOfClass(a, Setting, p, c);
    OnlyOfClass(b, ProfileKey, p, c);
    OnlyOfClass(d, ModeKey, p, c);
    OnlyOfClass(e, ScopedKey, p, c);
    OnlyOfClass(f, LocalKey, p, c);
  }

  lemma GroupsAre(s: Settings)
    requires ProfileSizes(s.resourceProfile).Some?
    ensures Groups(s) == Flat(ProfileEntries(s), EntryKV) + Flat(NetworkEntries(s), EntryKV)
  {
    hide ProfileSizes, ProfileEntries, NetworkEntries;
  }

  lemma FilterFive(a: seq<KV>, b: seq<KV>, d: seq<KV>, e: seq<KV>, f: seq<KV>, p: KV -> bool)
    ensures Filter(a + (b + d) + e + f, p) ==
            Filter(a, p) + (Filter(b, p) + Filter(d, p)) + Filter(e, p) + Filter(f, p)
  {
    hide Filter;
    FilterConcat(a + (b + d) + e, f, p);
    FilterConcat(a + (b + d), e, p);
    FilterConcat(a, b + d, p);
    FilterConcat(b, d, p);
  }

  lemma OnlyOfClass(kvs: seq<KV>, own: KeyClass, p: KV -> bool, c: KeyClass)
    requires AllOf(kvs, own) && forall kv :: p(kv) ==> ClassOf(kv.key) == c
    ensures c != own ==> Filter(kvs, p) == []
  {
    hide AllOf, ClassOf, Filter;
    if c != own {
      FilterOutside(kvs, own, p);
    }
  }
}
