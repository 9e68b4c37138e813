/**
  Rendering and importing are inverse to each other: exactly which records an import of their own rendered
  text restores, and what the import of a rendered text does to settings that already hold something.
 */
module UnboundRoundTrip {
  import opened Text
  import opened Seqs
  import opened UnboundSettings
  import opened UnboundRender
  import opened UnboundParse
  import opened UnboundRenderedBlocks
  import opened UnboundExtract
  import opened UnboundGroups
  import opened UnboundImport
  import opened UnboundImportLaws
  import opened UnboundRenderedExtract
  import opened UnboundRenderedGroups
  import opened UnboundRenderedLocals
  import opened UnboundRenderedSweep

  // ---------- from validity to the local zones' good form ----------

  lemma HostsAreGood(ip: Netip, zones: seq<LocalZone>, i: nat)
    requires ValidHosts(ip, AllHosts(zones)) && i < |zones|
    requires forall k | 0 <= k < |zones[i].hosts| :: PlainHost(zones[i].hosts[k])
    ensures GoodHosts(ip, zones[i].hosts)
  {
    hide ValidLocalHost, PlainHost, AllHosts;
    var hosts := zones[i].hosts;
    forall k | 0 <= k < |hosts| ensures GoodLocalHost(ip, hosts[k]) {
      HostAt(zones, i, k);
      assert ValidLocalHost(ip, AllHosts(zones)[|Flat(zones[..i], ZoneHosts)| + k]);
    }
    forall j, k | 0 <= j < k < |hosts| ensures hosts[j].hostname != hosts[k].hostname {
      HostAt(zones, i, j);
      HostAt(zones, i, k);
    }
  }

  lemma ValidLocalsAreGood(ip: Netip, zones: seq<LocalZone>)
    requires ValidLocalZones(ip, zones) && NoReservedLocal(zones)
    requires forall i, k | 0 <= i < |zones| && 0 <= k < |zones[i].hosts| :: PlainHost(zones[i].hosts[k])
    ensures GoodLocals(ip, zones)
  {
    hide ValidZoneName, GoodHosts, ValidHosts, PlainHost, IsReservedReverseName, AllHosts;
    forall i | 0 <= i < |zones| ensures GoodLocal(ip, zones[i]) {
      HostsAreGood(ip, zones, i);
    }
  }

  lemma ValidLocalsArePlain(ip: Netip, zones: seq<LocalZone>)
    requires ValidLocalZones(ip, zones)
    ensures PlainLocals(zones)
  {
    hide ValidZoneName, ValidHosts, AllHosts, PlainName;
    forall i | 0 <= i < |zones| ensures PlainName(zones[i].name) {
      ZoneNameChars(zones[i].name);
      NameCharsArePlain(zones[i].name);
    }
  }

  // ---------- the local zones of the server block ----------

  ghost function Prefix(s: Settings): seq<KV>
    requires ProfileSizes(s.resourceProfile).Some?
  {
    Head(s) + Groups(s) + Scoped(s) + Flat(s.reverseZones, PolicyKV)
  }

  lemma PrefixIs(s: Settings)
    requires ProfileSizes(s.resourceProfile).Some?
    ensures ServerKVs(s) == Prefix(s) + Flat(s.localZones, LocalKV)
  {
    hide Flat, Head, Groups, Scoped, ProfileSizes, ServerKVs, PolicyKV, LocalKV;
    SectionsInOrder(s);
    Associative(Head(s) + Groups(s) + Scoped(s), Flat(s.reverseZones, PolicyKV), Flat(s.localZones, LocalKV));
  }

  lemma ReverseKVIs(mode: string, name: string)
    ensures ReverseKV(mode)(name) == [KV("local-zone", ZoneValue(name, ReverseZoneType(mode)))]
  {
  }

  /** A policy line states a reserved reverse name of the policy's network. */
  lemma PolicyLine(policies: seq<ReverseZonePolicy>, i: nat) returns (network: string)
    requires i < |Flat(policies, PolicyKV)|
    ensures IsReverseLine(Flat(policies, PolicyKV)[i], network)
    ensures exists j | 0 <= j < |policies| :: policies[j].network == network
  {
    hide PolicyKV, ReverseNames, ReverseKV, ZoneValue, ParseLocalZoneValue, NetworkOf, Flat;
    var j, m := FlatOrigin(policies, PolicyKV, i);
    var policy := policies[j];
    network := policy.network;
    PolicyIsFlat(policy);
    var k, z := FlatOrigin(ReverseNames(network), ReverseKV(policy.mode), m);
    ReverseKVIs(policy.mode, ReverseNames(network)[k]);
    ParseReverseValue(network, k, policy.mode);
    NetworkOfName(network, k);
  }

  lemma PolicyIsFlat(policy: ReverseZonePolicy)
    ensures PolicyKV(policy) == Flat(ReverseNames(policy.network), ReverseKV(policy.mode))
  {
  }

  /** Before the local zones, only policy lines have a local key. */
  lemma LocalKeyInPrefix(s: Settings, i: nat) returns (k: nat)
    requires ProfileSizes(s.resourceProfile).Some? && i < |Prefix(s)| && ClassOf(Prefix(s)[i].key) == LocalKey
    ensures k < |Flat(s.reverseZones, PolicyKV)| && Prefix(s)[i] == Flat(s.reverseZones, PolicyKV)[k]
  {
    SectionClasses(s);
    hide Head, Scoped, ProfileSizes, ClassOf, Flat, PolicyKV, EntryKV, ProfileEntries, NetworkEntries, Locals;
    var a, p, m, e := Head(s), Flat(ProfileEntries(s), EntryKV), Flat(NetworkEntries(s), EntryKV), Scoped(s);
    var n := |a| + |p| + |m| + |e|;
    assert Prefix(s) == a + (p + m) + e + Flat(s.reverseZones, PolicyKV);
    if i < n {
      assert Prefix(s)[i] == (a + (p + m) + e)[i];
      AllOfNot(a, p, m, e, i);
      assert false;
    }
    k := i - n;
  }

  lemma AllOfNot(a: seq<KV>, p: seq<KV>, m: seq<KV>, e: seq<KV>, i: nat)
    requires AllOf(a, Setting) && AllOf(p, ProfileKey) && AllOf(m, ModeKey) && AllOf(e, ScopedKey)
    requires i < |a + (p + m) + e|
    ensures ClassOf((a + (p + m) + e)[i].key) != LocalKey
  {
    hide ClassOf;
    var all := a + (p + m) + e;
    if i < |a| {
      assert all[i] == a[i];
    } else if i < |a| + |p| {
      assert all[i] == p[i - |a|];
    } else if i < |a| + |p| + |m| {
      assert all[i] == m[i - |a| - |p|];
    } else {
      assert all[i] == e[i - |a| - |p| - |m|];
    }
  }

  lemma PrefixOpensNone(ip: Netip, s: Settings)
    requires ProfileSizes(s.resourceProfile).Some?
    ensures OpensNone(ip, Prefix(s))
  {
    ScopedLiterals();
    hide Prefix, ProfileSizes, ClassOf, Flat, PolicyKV, NetworkOf, ParseLocalZoneValue;
    var kvs := Prefix(s);
    forall i | 0 <= i < |kvs| && kvs[i].key == "local-zone"
      ensures ParseLocalZoneValue(kvs[i].value).Some? &&
              IsReservedReverseName(ParseLocalZoneValue(kvs[i].value).value.name)
    {
      var k := LocalKeyInPrefix(s, i);
      var network := PolicyLine(s.reverseZones, k);
    }
  }

  lemma ServerGroups(ip: Netip, s: Settings)
    requires ProfileSizes(s.resourceProfile).Some? && GoodLocals(ip, s.localZones)
    ensures HasGroups(ip, ServerKVs(s), s.localZones, |Prefix(s)|)
  {
    hide *;
    PrefixOpensNone(ip, s);
    NoZonesFrom(ip, Prefix(s), |Prefix(s)|);
    AllZones(ip, Prefix(s), s.localZones);
    PrefixIs(s);
  }

  lemma {:induction false} NoneFromForwards(ip: Netip, blocks: seq<ParsedBlock>)
    requires forall b | 0 <= b < |blocks| :: blocks[b].section != "server"
    ensures LocalZonesIn(ip, blocks) == []
  {
    if blocks != [] {
      NoneFromForwards(ip, blocks[..|blocks| - 1]);
    }
  }

  lemma LocalZonesOfStated(ip: Netip, blocks: seq<ParsedBlock>, s: Settings)
    requires StatesSettings(blocks, s) && GoodLocals(ip, s.localZones)
    ensures LocalZonesIn(ip, blocks) == s.localZones
  {
    hide ServerKVs, StatesZones, GoodLocals, ZonesUpTo, Flat, ProfileSizes, InGroup, KVs;
    ItemKVs(blocks, s);
    ServerGroups(ip, s);
    FlatHead(blocks, LocalZonesOfBlock(ip));
    NoneFromForwards(ip, blocks[1..]);
    HasGroupsMeans(ip, KVs(blocks[0].directives), s.localZones, |Prefix(s)|);
    assert |KVs(blocks[0].directives)| == |blocks[0].directives| by { KVsLength(blocks[0].directives); }
  }

  lemma KVsLength(ds: seq<ParsedDirective>)
    ensures |KVs(ds)| == |ds|
  {
  }

  lemma HasGroupsMeans(ip: Netip, kvs: seq<KV>, zones: seq<LocalZone>, start: nat)
    requires HasGroups(ip, kvs, zones, start)
    ensures ZonesUpTo(ip, kvs, |kvs|) == zones
    ensures forall k: nat | start <= k < |kvs| :: InGroup(ip, kvs, k)
  {
  }

  // ---------- what is consumed ----------

  /** All extractors succeed on the record's blocks. */
  ghost predicate Extracts(ip: Netip, blocks: seq<ParsedBlock>, s: Settings) {
    ProfileSizes(s.resourceProfile).Some? &&
    StatesSettings(blocks, s) && HasGroups(ip, ServerKVs(s), s.localZones, |Prefix(s)|) &&
    NetworkModeOf(Items(blocks)) == Some(s.networkMode) && ProfileOf(Items(blocks)) == Some(s.resourceProfile) &&
    forall j | 0 <= j < |s.reverseZones| ::
      s.reverseZones[j].network in NETWORKS &&
      PolicyOf(Items(blocks), s.reverseZones[j].network) == Some(s.reverseZones[j].mode)
  }

  /** A claimed directive is consumed. */
  lemma ClaimedIsConsumed(ip: Netip, blocks: seq<ParsedBlock>, s: Settings, i: nat)
    requires Extracts(ip, blocks, s) && i < |ServerKVs(s)| && IsClaimed(ServerKVs(s)[i])
    ensures Place(0, i) in AllConsumed(ip, blocks)
  {
    hide ServerKVs, StatesZones, ZonesUpTo, Flat, ProfileSizes, InGroup, Items, NetworkModeOf, ProfileOf, PolicyOf,
      ReverseNames, Prefix, LocalKV, IsReverseLine;
    var d := blocks[0].directives[i];
    assert KVs(blocks[0].directives)[i] == KVOf(d);
    var p := Place(0, i);
    assert ServerPlace(blocks, p);
    if ClassOf(d.key) == ModeKey {
      assert ModeConsumed(blocks, p);
    } else if ClassOf(d.key) == ProfileKey {
      assert ProfileConsumed(blocks, p);
    } else if i < |Prefix(s)| {
      PrefixIs(s);
      var k := LocalKeyInPrefix(s, i);
      var network := PolicyLine(s.reverseZones, k);
      var j :| 0 <= j < |s.reverseZones| && s.reverseZones[j].network == network;
      assert ReverseConsumed(blocks, p);
    } else {
      HasGroupsMeans(ip, ServerKVs(s), s.localZones, |Prefix(s)|);
      assert LocalConsumed(ip, blocks, p);
    }
  }

  /** Any other directive is not. */
  lemma UnclaimedIsOpen(ip: Netip, blocks: seq<ParsedBlock>, p: Place)
    requires p in AllConsumed(ip, blocks)
    ensures IsClaimed(KVOf(blocks[p.block].directives[p.index]))
  {
    hide NetworkModeOf, ProfileOf, PolicyOf, InGroup, ParseLocalZoneValue, NetworkOf, Items;
    if LocalConsumed(ip, blocks, p) {
      LocalConsumedLine(ip, blocks, p);
    }
  }

  lemma StatedClaims(ip: Netip, blocks: seq<ParsedBlock>, s: Settings)
    requires Extracts(ip, blocks, s)
    ensures ClaimsExactly(AllConsumed(ip, blocks), 0, ServerKVs(s))
  {
    hide ServerKVs, AllConsumed, IsClaimed, Extracts, ProfileSizes, StatesZones;
    assert KVs(blocks[0].directives) == ServerKVs(s) && |KVs(blocks[0].directives)| == |blocks[0].directives| by {
      ExtractsStates(ip, blocks, s);
    }
    forall i: nat | i < |ServerKVs(s)| ensures Place(0, i) in AllConsumed(ip, blocks) <==> IsClaimed(ServerKVs(s)[i]) {
      if IsClaimed(ServerKVs(s)[i]) {
        ClaimedIsConsumed(ip, blocks, s, i);
      }
      if Place(0, i) in AllConsumed(ip, blocks) {
        UnclaimedIsOpen(ip, blocks, Place(0, i));
      }
    }
  }

  lemma ExtractsStates(ip: Netip, blocks: seq<ParsedBlock>, s: Settings)
    requires Extracts(ip, blocks, s)
    ensures blocks != [] && KVs(blocks[0].directives) == ServerKVs(s) && StatesSettings(blocks, s)
    ensures |KVs(blocks[0].directives)| == |blocks[0].directives|
  {
    hide ServerKVs;
  }

  // ---------- what the sweep leaves ----------

  lemma NoExpertConcat(names: set<string>, a: seq<KV>, b: seq<KV>)
    requires NoExpert(names, a) && NoExpert(names, b)
    ensures NoExpert(names, a + b)
  {
    hide IsClaimed, DispositionOf;
  }

  lemma {:induction false} NoExpertFlat<T>(names: set<string>, xs: seq<T>, f: T -> seq<KV>)
    requires forall i | 0 <= i < |xs| :: NoExpert(names, f(xs[i]))
    ensures NoExpert(names, Flat(xs, f))
  {
    hide IsClaimed, DispositionOf, NoExpert;
    if xs == [] {
      NoExpertNone(names);
    } else {
      var n := |xs| - 1;
      NoExpertFlat(names, xs[..n], f);
      NoExpertConcat(names, Flat(xs[..n], f), f(xs[n]));
    }
  }

  lemma NoExpertNone(names: set<string>)
    ensures NoExpert(names, [])
  {
  }

  lemma EntryNoExpert(names: set<string>, s: Settings, e: Entry)
    requires StatesEntry(s, e)
    ensures NoExpert(names, EntryKV(e))
  {
    hide FieldOf, IsClaimed, IsZoneScoped, UnguidedDisposition, Switch, Number, IsSwitch, Parses;
  }

  lemma HeadNoExpert(names: set<string>, s: Settings)
    requires 0 <= s.ednsBufferSize <= 4096 && 0 <= s.logVerbosity <= 1 && CacheInRange(s)
    ensures NoExpert(names, Head(s))
  {
    hide BehaviourEntries, CacheEntries, NoExpert, StatesEntry, EntryKV, CacheInRange;
    var b, c := BehaviourEntries(s), CacheEntries(s);
    BehaviourStates(s);
    CacheStates(s);
    forall i | 0 <= i < |b| ensures NoExpert(names, EntryKV(b[i])) { EntryNoExpert(names, s, b[i]); }
    forall i | 0 <= i < |c| ensures NoExpert(names, EntryKV(c[i])) { EntryNoExpert(names, s, c[i]); }
    NoExpertFlat(names, b, EntryKV);
    NoExpertFlat(names, c, EntryKV);
    NoExpertConcat(names, Flat(b, EntryKV), Flat(c, EntryKV));
  }

  lemma ScopedNoExpert(names: set<string>, s: Settings)
    requires forall i | 0 <= i < |s.forwardZones| :: s.forwardZones[i].name in names
    ensures NoExpert(names, Scoped(s))
  {
    hide IsClaimed, ServerDisposition, Flat;
    forall i | 0 <= i < |s.privateDomains| ensures NoExpert(names, PrivateKV(s.privateDomains[i])) { }
    forall i | 0 <= i < |s.forwardZones| ensures NoExpert(names, OptInKV(s.forwardZones[i])) { }
    NoExpertFlat(names, s.privateDomains, PrivateKV);
    NoExpertFlat(names, s.forwardZones, OptInKV);
    NoExpertConcat(names, Flat(s.privateDomains, PrivateKV), Flat(s.forwardZones, OptInKV));
  }

  lemma ClaimedNoExpert(names: set<string>, kvs: seq<KV>, c: KeyClass)
    requires AllOf(kvs, c) && !c.Setting? && !c.ScopedKey?
    ensures NoExpert(names, kvs)
  {
    hide AllOf, DispositionOf, IsClaimed;
    ClaimedClass(kvs, c);
  }

  lemma RecordNoExpert(names: set<string>, s: Settings)
    requires ProfileSizes(s.resourceProfile).Some?
    requires 0 <= s.ednsBufferSize <= 4096 && 0 <= s.logVerbosity <= 1 && CacheInRange(s)
    requires forall i | 0 <= i < |s.forwardZones| :: s.forwardZones[i].name in names
    ensures NoExpert(names, ServerKVs(s))
  {
    hide *;
    SectionsInOrder(s);
    SectionClasses(s);
    GroupsAre(s);
    var p, m := Flat(ProfileEntries(s), EntryKV), Flat(NetworkEntries(s), EntryKV);
    HeadNoExpert(names, s);
    ScopedNoExpert(names, s);
    ClaimedNoExpert(names, p, ProfileKey);
    ClaimedNoExpert(names, m, ModeKey);
    ClaimedNoExpert(names, Locals(s), LocalKey);
    NoExpertConcat(names, p, m);
    NoExpertConcat(names, Head(s), Groups(s));
    NoExpertConcat(names, Head(s) + Groups(s), Scoped(s));
    NoExpertConcat(names, Head(s) + Groups(s) + Scoped(s), Locals(s));
  }

  lemma {:induction false} MappedBlocksAddNothing(st: Sweep, names: set<string>, consumed: iset<Place>,
                                                  mapped: iset<nat>,
                                                 blocks: seq<ParsedBlock>, n: nat)
    requires 1 <= n <= |blocks| && 0 !in mapped && forall b: nat | 1 <= b < |blocks| :: b in mapped
    requires blocks[0].section == "server"
    ensures SweepBlocks(st, names, consumed, mapped, blocks, n) ==
            SweepDirectives(st, names, consumed, 0, blocks[0].directives, |blocks[0].directives|)
  {
    hide SweepDirectives, ClauseFinding, ClauseLines;
    if n > 1 {
      MappedBlocksAddNothing(st, names, consumed, mapped, blocks, n - 1);
    } else {
      assert SweepBlocks(st, names, consumed, mapped, blocks, 0) == st;
    }
  }

  /** The ranges of a valid record that reading numbers back needs. */
  ghost predicate InRange(s: Settings) {
    0 <= s.ednsBufferSize <= 4096 && 0 <= s.logVerbosity <= 1 && CacheInRange(s)
  }

  function NamesIn(s: Settings): set<string> { ZoneNames(s.forwardZones) }

  lemma NamesAreIn(s: Settings)
    ensures forall i | 0 <= i < |s.forwardZones| :: s.forwardZones[i].name in NamesIn(s)
    ensures ZoneNames(Map(s.forwardZones, Bare)) == NamesIn(s)
  {
    var bare := Map(s.forwardZones, Bare);
    forall i | 0 <= i < |s.forwardZones| ensures bare[i].name == s.forwardZones[i].name { }
    assert ZoneNames(bare) == NamesIn(s);
  }

  function Start(base: Settings, s: Settings): Sweep { Sweep(base, Map(s.forwardZones, Bare), [], [], []) }

  /** The sweep over the record's blocks is the fold over its directives, and adopts nothing. */
  lemma SweptIsFolded(ip: Netip, base: Settings, blocks: seq<ParsedBlock>, s: Settings)
    requires ProfileSizes(s.resourceProfile).Some? && InRange(s) && ValidForwardZones(ip, s.forwardZones)
    requires Extracts(ip, blocks, s)
    ensures SameCore(Swept(ip, base, blocks), Folded(Start(base, s), NamesIn(s), ServerKVs(s)))
    ensures Swept(ip, base, blocks).expert == []
  {
    hide ServerKVs, AllConsumed, Extracts, ProfileSizes, StatesZones, MappedZone, MappedZones, SweepBlocks, ZoneNames,
      NoExpert, ClaimsExactly, SweepDirectives, Folded, KVs, ValidForwardZones, StatesSettings, CacheInRange;
    ExtractsStates(ip, blocks, s);
    ZonesOfStated(ip, blocks, s);
    StatedClaims(ip, blocks, s);
    NamesAreIn(s);
    RecordNoExpert(NamesIn(s), s);
    StatesFirst(blocks, s);
    var ds := blocks[0].directives;
    assert KVs(ds)[..|ds|] == KVs(ds);
    MappedBlocksAddNothing(Start(base, s), NamesIn(s), AllConsumed(ip, blocks), Mapped(ip, blocks), blocks, |blocks|);
    SweepIsFolded(Start(base, s), NamesIn(s), AllConsumed(ip, blocks), 0, ds, |ds|);
  }

  lemma StatesFirst(blocks: seq<ParsedBlock>, s: Settings)
    requires StatesSettings(blocks, s)
    ensures blocks[0].section == "server"
  {
  }

  // ---------- importing rendered text ----------

  /** The mode the record sets for a network, where it has a policy for it. */
  function PolicyFrom(policies: seq<ReverseZonePolicy>): ReverseZonePolicy -> ReverseZonePolicy {
    (p: ReverseZonePolicy) =>
      var i := PolicyIndex(policies, p.network);
      if i < |policies| then p.(mode := policies[i].mode) else p
  }

  /** The settings `base` after taking over everything `s` states. */
  function MergedSettings(base: Settings, s: Settings): Settings {
    var zones := MergeByName(base.forwardZones, s.forwardZones, ForwardNameOf);
    s.(forwardZones := zones,
       localZones := MergeByName(base.localZones, s.localZones, LocalNameOf),
       privateDomains := MergeDomains(base.privateDomains, s.privateDomains, zones),
       reverseZones := Map(base.reverseZones, PolicyFrom(s.reverseZones)))
  }

  /** No private domain names a forward zone. */
  ghost predicate DomainsApart(s: Settings) { Outside(s.privateDomains, NamesIn(s)) }

  lemma ExtractorsSucceed(ip: Netip, blocks: seq<ParsedBlock>, s: Settings)
    requires Valid(ip, s) && PlainLiterals(s) && NoReservedLocal(s.localZones) && StatesSettings(blocks, s)
    ensures Extracts(ip, blocks, s)
  {
    hide StatesSettings, ValidForwardZones, ValidPrivateDomains, ValidLocalZones, ServerKVs, Items, NetworkModeOf,
      ProfileOf, PolicyOf, HasGroups, GoodLocals, PlainLocals, NoReservedLocal, ProfileSizes, ReverseNames, Prefix,
      PlainHost;
    ValidLocalsAreGood(ip, s.localZones);
    ValidLocalsArePlain(ip, s.localZones);
    ServerGroups(ip, s);
    ModeOfStated(blocks, s);
    ProfileOfStated(blocks, s);
    forall j | 0 <= j < |s.reverseZones|
      ensures s.reverseZones[j].network in NETWORKS
      ensures PolicyOf(Items(blocks), s.reverseZones[j].network) == Some(s.reverseZones[j].mode)
    {
      assert ValidPolicy(s.reverseZones[j]);
      PolicyOfStated(blocks, s, s.reverseZones[j].network);
    }
  }

  lemma PoliciesTaken(ip: Netip, blocks: seq<ParsedBlock>, s: Settings, base: seq<ReverseZonePolicy>)
    requires StatesSettings(blocks, s) && ValidReverseZones(s.reverseZones)
    requires NoReservedLocal(s.localZones) && PlainLocals(s.localZones)
    ensures Map(base, WithPolicy(Items(blocks))) == Map(base, PolicyFrom(s.reverseZones))
  {
    hide StatesSettings, Items, UniformNetwork, NoReservedLocal, PlainLocals;
    forall i | 0 <= i < |base|
      ensures WithPolicy(Items(blocks))(base[i]) == PolicyFrom(s.reverseZones)(base[i])
    {
      if base[i].network in NETWORKS {
        hide PolicyOf;
        PolicyOfStated(blocks, s, base[i].network);
      } else {
        var j := PolicyIndex(s.reverseZones, base[i].network);
        assert j < |s.reverseZones| ==> ValidPolicy(s.reverseZones[j]);
      }
    }
  }

  lemma ValidInRange(ip: Netip, s: Settings)
    requires Valid(ip, s)
    ensures InRange(s) && ProfileSizes(s.resourceProfile).Some?
    ensures ValidForwardZones(ip, s.forwardZones) && ValidLocalZones(ip, s.localZones) &&
            ValidReverseZones(s.reverseZones)
    ensures DistinctForwardNames(s.forwardZones)
  {
    hide ValidForwardZone, ValidPrivateDomains, ValidLocalZones, ValidReverseZones, ProfileSizes;
  }

  /** What the sweep hands to the merge, for a record with its domains and zones apart. */
  lemma SweptRecord(ip: Netip, base: Settings, blocks: seq<ParsedBlock>, s: Settings)
    requires Valid(ip, s) && DomainsApart(s) && Extracts(ip, blocks, s)
    ensures var w := Swept(ip, base, blocks);
            w.zones == s.forwardZones && w.privateDomains == s.privateDomains && w.expert == [] &&
            SameLists(w.candidate, base) && forall f: Field :: SameField(w.candidate, s, f)
  {
    hide Valid, ServerKVs, Extracts, Swept, Folded, Head, Scoped, SameLists, SameField, ValidForwardZones,
      ProfileSizes, ValidLocalZones, ValidReverseZones, CacheInRange, DistinctForwardNames, NamesIn, Outside;
    ValidInRange(ip, s);
    NamesAreIn(s);
    SweptIsFolded(ip, base, blocks, s);
    ServerFold(Start(base, s), NamesIn(s), s);
    HeadFold(Start(base, s), NamesIn(s), s);
    ScopedFold(Folded(Start(base, s), NamesIn(s), Head(s)), NamesIn(s), s);
    assert [] + s.privateDomains == s.privateDomains;
  }

  lemma CombinedRecord(ip: Netip, base: Settings, blocks: seq<ParsedBlock>, s: Settings, w: Sweep)
    requires w.zones == s.forwardZones && w.privateDomains == s.privateDomains
    requires SameLists(w.candidate, base) && forall f: Field :: SameField(w.candidate, s, f)
    requires LocalZonesIn(ip, blocks) == s.localZones
    requires NetworkModeOf(Items(blocks)) == Some(s.networkMode) && ProfileOf(Items(blocks)) == Some(s.resourceProfile)
    requires Map(base.reverseZones, WithPolicy(Items(blocks))) == Map(base.reverseZones, PolicyFrom(s.reverseZones))
    ensures Combine(ip, base, blocks, w) == MergedSettings(base, s)
  {
    hide MergeByName, MergeDomains, LocalZonesIn, Items, PolicyOf, WithPolicy, NetworkModeOf, ProfileOf, PolicyFrom,
      Switch, Number, IsSwitch;
    var r, m := Combine(ip, base, blocks, w), MergedSettings(base, s);
    forall f: Field ensures SameField(r, m, f) {
      hide Combine, MergedSettings;
      CombineFields(ip, base, blocks, w, f);
      MergedFields(base, s, f);
      assert SameField(w.candidate, s, f);
    }
    FieldsDetermine(r, m);
  }

  lemma MergedFields(base: Settings, s: Settings, f: Field)
    ensures SameField(MergedSettings(base, s), s, f)
  {
    hide MergeByName, MergeDomains, PolicyFrom;
  }

  /** On the record's blocks the import is the merge, and adopts no text. */
  lemma ImportOfStated(ip: Netip, base: Settings, custom: string, blocks: seq<ParsedBlock>, s: Settings)
    requires Valid(ip, s) && PlainLiterals(s) && DomainsApart(s) && NoReservedLocal(s.localZones)
    requires StatesSettings(blocks, s)
    ensures var r := ImportOf(ip, base, custom, blocks);
            r.settings == MergedSettings(base, s) && r.customAdopted == TrimSpace(custom)
  {
    hide *;
    ValidInRange(ip, s);
    ExtractorsSucceed(ip, blocks, s);
    SweptRecord(ip, base, blocks, s);
    ImportParts(ip, base, custom, blocks);
    LocalZonesFound(ip, blocks, s);
    ValidLocalsArePlain(ip, s.localZones);
    PoliciesTaken(ip, blocks, s, base.reverseZones);
    ExtractsGroups(ip, blocks, s);
    CombinedRecord(ip, base, blocks, s, Swept(ip, base, blocks));
  }

  lemma LocalZonesFound(ip: Netip, blocks: seq<ParsedBlock>, s: Settings)
    requires StatesSettings(blocks, s) && PlainLiterals(s) && ValidLocalZones(ip, s.localZones) &&
             NoReservedLocal(s.localZones)
    ensures LocalZonesIn(ip, blocks) == s.localZones
  {
    hide StatesSettings, ValidLocalZones, GoodLocals, LocalZonesIn, NoReservedLocal, PlainHost;
    ValidLocalsAreGood(ip, s.localZones);
    LocalZonesOfStated(ip, blocks, s);
  }

  lemma ImportParts(ip: Netip, base: Settings, custom: string, blocks: seq<ParsedBlock>)
    ensures var r := ImportOf(ip, base, custom, blocks);
            r.settings == Combine(ip, base, blocks, Swept(ip, base, blocks)) &&
            (Swept(ip, base, blocks).expert == [] ==> r.customAdopted == TrimSpace(custom))
  {
    hide Combine, Swept;
  }

  lemma ExtractsGroups(ip: Netip, blocks: seq<ParsedBlock>, s: Settings)
    requires Extracts(ip, blocks, s)
    ensures NetworkModeOf(Items(blocks)) == Some(s.networkMode) && ProfileOf(Items(blocks)) == Some(s.resourceProfile)
  {
    hide Items, NetworkModeOf, ProfileOf, PolicyOf, HasGroups, StatesSettings;
  }

  /** The text a record renders to, empty for an invalid one. */
  ghost function TextOf(ip: Netip, words: Wording, s: Settings): string {
    match Rendered(ip, words, s) case Some(text) => text case None => ""
  }

  /** The import of `text` gives these settings and adopts nothing beyond the old custom text. */
  ghost predicate ImportGives(ip: Netip, base: Settings, custom: string, text: string, s: Settings) {
    match Imported(ip, base, custom, text)
    case Some(r) => r.settings == s && r.customAdopted == TrimSpace(custom)
    case None => false
  }

  /** Importing a rendered record takes over everything it states, whatever the settings held before. */
  lemma ImportOfRendered(ip: Netip, words: Wording, base: Settings, custom: string, s: Settings)
    requires OneLineRemarks(words) && Valid(ip, s) && PlainLiterals(s)
    requires DomainsApart(s) && NoReservedLocal(s.localZones)
    requires ByteLength(TextOf(ip, words, s)) <= MAX_CUSTOM_CONFIG_BYTES
    ensures ImportGives(ip, base, custom, TextOf(ip, words, s), MergedSettings(base, s))
  {
    hide *;
    var text := TextOf(ip, words, s);
    TextReads(ip, words, s);
    ImportOfStated(ip, base, custom, Blocks(text), s);
    GivesWhenRead(ip, base, custom, text, MergedSettings(base, s));
  }

  lemma TextReads(ip: Netip, words: Wording, s: Settings)
    requires OneLineRemarks(words) && Valid(ip, s) && PlainLiterals(s)
    ensures StatesSettings(Blocks(TextOf(ip, words, s)), s)
  {
    hide Valid, PlainLiterals, StatesSettings, Blocks, RenderedLines;
    BlocksOfRendered(ip, words, s);
  }

  lemma GivesWhenRead(ip: Netip, base: Settings, custom: string, text: string, m: Settings)
    requires ByteLength(text) <= MAX_CUSTOM_CONFIG_BYTES
    requires ImportOf(ip, base, custom, Blocks(text)).settings == m
    requires ImportOf(ip, base, custom, Blocks(text)).customAdopted == TrimSpace(custom)
    ensures ImportGives(ip, base, custom, text, m)
  {
    hide ImportOf, Blocks, ByteLength, TrimSpace;
  }

  // ---------- exactly which records come back ----------

  ghost predicate SameNetworks(a: seq<ReverseZonePolicy>, b: seq<ReverseZonePolicy>) {
    |a| == |b| && forall i | 0 <= i < |a| :: a[i].network == b[i].network
  }

  ghost predicate EmptyLists(base: Settings) {
    base.forwardZones == [] && base.localZones == [] && base.privateDomains == []
  }

  lemma {:induction false} MergeIntoNothing<T(!new)>(xs: seq<T>, nameOf: T -> string)
    requires forall i, j | 0 <= i < j < |xs| :: nameOf(xs[i]) != nameOf(xs[j])
    ensures MergeByName([], xs, nameOf) == xs
  {
    if xs != [] {
      var n := |xs| - 1;
      MergeIntoNothing(xs[..n], nameOf);
      UpsertSplit(xs[..n], xs[n], nameOf, n);
    }
  }

  lemma {:induction false} DomainsIntoNothing(domains: seq<string>, zones: seq<ForwardZone>)
    requires Distinct(domains) && forall i | 0 <= i < |domains| :: !ClaimedByZone(domains[i], zones)
    ensures MergeDomains([], domains, zones) == domains
  {
    hide ClaimedByZone;
    if domains != [] {
      DomainsIntoNothing(domains[..|domains| - 1], zones);
    }
  }

  lemma PoliciesBack(base: seq<ReverseZonePolicy>, policies: seq<ReverseZonePolicy>)
    requires SameNetworks(base, policies) && DistinctNetworks(policies)
    ensures Map(base, PolicyFrom(policies)) == policies
  {
    forall i | 0 <= i < |base| ensures PolicyFrom(policies)(base[i]) == policies[i] {
      var j := PolicyIndex(policies, base[i].network);
      assert j == i;
    }
  }

  lemma MergedIsRecord(ip: Netip, base: Settings, s: Settings)
    requires Valid(ip, s) && EmptyLists(base) && SameNetworks(base.reverseZones, s.reverseZones)
    ensures MergedSettings(base, s) == s
  {
    hide MergeByName, MergeDomains, PolicyFrom, ValidForwardZone, ValidHosts, ValidZoneName, ProfileSizes, AllHosts;
    MergeIntoNothing(s.forwardZones, ForwardNameOf);
    MergeIntoNothing(s.localZones, LocalNameOf);
    DomainsIntoNothing(s.privateDomains, s.forwardZones);
    PoliciesBack(base.reverseZones, s.reverseZones);
  }

  lemma {:induction false} MergedComeFrom<T(!new)>(existing: seq<T>, incoming: seq<T>, nameOf: T -> string, x: T)
    requires x in MergeByName(existing, incoming, nameOf)
    ensures x in existing || x in incoming
  {
    if incoming != [] {
      var n := |incoming| - 1;
      var before := MergeByName(existing, incoming[..n], nameOf);
      var p := UpsertEffect(before, incoming[n], nameOf);
      if x in before {
        MergedComeFrom(existing, incoming[..n], nameOf, x);
      }
    }
  }

  lemma {:induction false} DomainsComeFrom(existing: seq<string>, incoming: seq<string>, zones: seq<ForwardZone>,
                                           d: string)
    requires d in MergeDomains(existing, incoming, zones)
    ensures d in existing || d in incoming
  {
    hide ClaimedByZone;
    if incoming != [] && d in MergeDomains(existing, incoming[..|incoming| - 1], zones) {
      DomainsComeFrom(existing, incoming[..|incoming| - 1], zones, d);
    }
  }

  /** No extracted local zone has a reserved reverse name. */
  lemma {:induction false} ExtractedUnreserved(ip: Netip, kvs: seq<KV>, n: nat, z: LocalZone)
    requires n <= |kvs| && z in ZonesUpTo(ip, kvs, n)
    ensures !IsReservedReverseName(z.name)
  {
    hide ParseLocalZoneValue, ValidZoneName, InventoryOf, NetworkOf, StopAfter;
    if z in ZonesUpTo(ip, kvs, n - 1) {
      ExtractedUnreserved(ip, kvs, n - 1, z);
    }
  }

  lemma LocalZonesUnreserved(ip: Netip, blocks: seq<ParsedBlock>)
    ensures NoReservedLocal(LocalZonesIn(ip, blocks))
  {
    hide ZonesUpTo, NetworkOf;
    var zones := LocalZonesIn(ip, blocks);
    forall i | 0 <= i < |zones| ensures !IsReservedReverseName(zones[i].name) {
      var b, m := FlatOrigin(blocks, LocalZonesOfBlock(ip), i);
      ExtractedUnreserved(ip, KVs(blocks[b].directives), |blocks[b].directives|, zones[i]);
    }
  }

  lemma {:induction false} SweepCollectsOutside(st: Sweep, names: set<string>, consumed: iset<Place>, b: nat,
                                               ds: seq<ParsedDirective>, n: nat)
    requires n <= |ds| && Outside(st.privateDomains, names)
    ensures Outside(SweepDirectives(st, names, consumed, b, ds, n).privateDomains, names)
  {
    hide ApplyServer, OptIn, IsZoneScoped, DirectiveFinding, DirectiveExpert;
    if n > 0 {
      SweepCollectsOutside(st, names, consumed, b, ds, n - 1);
    }
  }

  /** A swept private domain never names a mapped forward zone. */
  lemma {:induction false} BlocksCollectOutside(st: Sweep, names: set<string>, consumed: iset<Place>, mapped: iset<nat>,
                                               blocks: seq<ParsedBlock>, n: nat)
    requires n <= |blocks| && Outside(st.privateDomains, names)
    ensures Outside(SweepBlocks(st, names, consumed, mapped, blocks, n).privateDomains, names)
  {
    hide SweepDirectives, ClauseFinding, ClauseLines, Outside;
    if n > 0 {
      BlocksCollectOutside(st, names, consumed, mapped, blocks, n - 1);
      SweepCollectsOutside(SweepBlocks(st, names, consumed, mapped, blocks, n - 1), names, consumed, n - 1,
                           blocks[n - 1].directives, |blocks[n - 1].directives|);
    }
  }

  /** What an import into empty lists can contain at all. */
  lemma ImportedShape(ip: Netip, base: Settings, custom: string, blocks: seq<ParsedBlock>)
    requires EmptyLists(base)
    ensures var r := ImportOf(ip, base, custom, blocks).settings;
            NoReservedLocal(r.localZones) && Outside(r.privateDomains, ZoneNames(MappedZones(ip, blocks)))
  {
    hide MappedZones, SweepBlocks, AllConsumed, Mapped, LocalZonesIn, NetworkOf, NetworkModeOf, ProfileOf, PolicyOf,
      WithPolicy, MergeByName, MergeDomains, Items, ZoneNames;
    var zones := MappedZones(ip, blocks);
    var w := Swept(ip, base, blocks);
    var r := Combine(ip, base, blocks, w);
    LocalZonesUnreserved(ip, blocks);
    forall i | 0 <= i < |r.localZones| ensures !IsReservedReverseName(r.localZones[i].name) {
      MergedComeFrom([], LocalZonesIn(ip, blocks), LocalNameOf, r.localZones[i]);
    }
    BlocksCollectOutside(Sweep(base, zones, [], [], []), ZoneNames(zones), AllConsumed(ip, blocks), Mapped(ip, blocks),
                         blocks, |blocks|);
    forall i | 0 <= i < |r.privateDomains| ensures r.privateDomains[i] !in ZoneNames(zones) {
      DomainsComeFrom([], w.privateDomains, r.forwardZones, r.privateDomains[i]);
    }
  }

  lemma OnlyTheseComeBack(ip: Netip, base: Settings, custom: string, blocks: seq<ParsedBlock>, s: Settings)
    requires StatesSettings(blocks, s) && ValidForwardZones(ip, s.forwardZones) && EmptyLists(base)
    requires ImportOf(ip, base, custom, blocks).settings == s
    ensures DomainsApart(s) && NoReservedLocal(s.localZones)
  {
    hide StatesSettings, ValidForwardZones, EmptyLists, ImportOf, NoReservedLocal, Outside, MappedZones, ZoneNames;
    ImportedShape(ip, base, custom, blocks);
    ZonesOfStated(ip, blocks, s);
    NamesAreIn(s);
  }

  lemma GivenMeans(ip: Netip, base: Settings, custom: string, text: string, m: Settings)
    requires ImportGives(ip, base, custom, text, m)
    ensures ImportOf(ip, base, custom, Blocks(text)).settings == m && ByteLength(text) <= MAX_CUSTOM_CONFIG_BYTES
  {
    hide ImportOf, Blocks, ByteLength, TrimSpace;
  }

  /**
    The round trip, exactly: a valid record comes back from its own rendered text if and only if the text
    fits the import limit, no private domain names a forward zone, and no local zone has the name of a
    reserved reverse zone.
   */
  lemma RoundTrip(ip: Netip, words: Wording, base: Settings, custom: string, s: Settings)
    requires OneLineRemarks(words) && Valid(ip, s) && PlainLiterals(s)
    requires EmptyLists(base) && SameNetworks(base.reverseZones, s.reverseZones)
    ensures ImportGives(ip, base, custom, TextOf(ip, words, s), s) <==>
            ByteLength(TextOf(ip, words, s)) <= MAX_CUSTOM_CONFIG_BYTES && DomainsApart(s) &&
            NoReservedLocal(s.localZones)
  {
    hide *;
    var text := TextOf(ip, words, s);
    if ImportGives(ip, base, custom, text, s) {
      GivenMeans(ip, base, custom, text, s);
      TextReads(ip, words, s);
      ValidInRange(ip, s);
      OnlyTheseComeBack(ip, base, custom, Blocks(text), s);
    } else if ByteLength(text) <= MAX_CUSTOM_CONFIG_BYTES && DomainsApart(s) && NoReservedLocal(s.localZones) {
      ImportOfRendered(ip, words, base, custom, s);
      MergedIsRecord(ip, base, s);
      assert false;
    }
  }

  // ---------- a valid record that does not come back ----------

  const CLASH_ZONE: ForwardZone := ForwardZone("a.", ["9.9.9.9"], false, false, false)

  /** A domain released for private answers that is also a forward zone without that opt-in. */
  const CLASH: Settings := Settings(true, true, true, true, 1232, 1, true, 86400, 1800, 60, 86400, 2,
                                    "small", DUAL_MODE, [CLASH_ZONE], ["a."], [], [])

  lemma ShortName()
    ensures ValidZoneName("a.")
  {
    var name := "a.";
    assert TrimSuffix(name, ".") == "a";
    FirstIndexIs("a", '.', 1);
    assert SplitOn("a", '.') == ["a"];
    TrimSpaceTrims(name);
  }

  lemma ClashIsValid(ip: Netip)
    requires ip.canonical("9.9.9.9") && !ip.reservedForward("9.9.9.9")
    ensures Valid(ip, CLASH) && PlainLiterals(CLASH) && !DomainsApart(CLASH)
  {
    hide ValidZoneName;
    ShortName();
    assert CLASH.forwardZones[..0] == [];
    assert TargetCount(CLASH.forwardZones) == TargetCount([]) + 1;
    assert CLASH.privateDomains[0] == CLASH.forwardZones[0].name;
    assert AllHosts(CLASH.localZones) == [];
  }

  /** Without the condition on names the round trip fails, on any base and with any wording. */
  lemma ClashIsLost(ip: Netip, words: Wording, base: Settings, custom: string)
    requires ip.canonical("9.9.9.9") && !ip.reservedForward("9.9.9.9") && OneLineRemarks(words)
    requires EmptyLists(base) && base.reverseZones == []
    ensures Valid(ip, CLASH) && !ImportGives(ip, base, custom, TextOf(ip, words, CLASH), CLASH)
  {
    ClashIsValid(ip);
    hide *;
    NoNetworks(base);
    RoundTrip(ip, words, base, custom, CLASH);
  }

  lemma NoNetworks(base: Settings)
    requires base.reverseZones == []
    ensures SameNetworks(base.reverseZones, CLASH.reverseZones)
  {
  }
}
