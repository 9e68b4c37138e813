/**
  The all-or-nothing groups in blocks that state a settings record: network mode, resource profile and the
  RFC 1918 reverse policies come out as they went in.
 */
module UnboundRenderedGroups {
  import opened Text
  import opened Seqs
  import opened UnboundSettings
  import opened UnboundRender
  import opened UnboundParse
  import opened UnboundRenderedBlocks
  import opened UnboundExtract
  import opened UnboundGroups
  import opened UnboundRenderedExtract

  /** The only directive of the record that `p` accepts is the only item selected. */
  lemma OnlyItem(blocks: seq<ParsedBlock>, s: Settings, p: KV -> bool, kvs: seq<KV>)
    requires StatesSettings(blocks, s) && Filter(ServerKVs(s), p) == kvs
    ensures |Select(Items(blocks), p)| == |kvs|
    ensures forall i | 0 <= i < |kvs| :: Select(Items(blocks), p)[i].kv == kvs[i]
  {
    hide StatesSettings, ServerKVs, Filter, Items, Select;
    ItemKVs(blocks, s);
    SelectView(Items(blocks), p);
    assert Map(Select(Items(blocks), p), ItemKV) == kvs;
  }

  // ---------- network mode and resource profile ----------

  lemma FilterTriple(a: KV, b: KV, c: KV, p: KV -> bool)
    ensures Filter([a, b, c], p) == (if p(a) then [a] else []) + (if p(b) then [b] else []) + (if p(c) then [c] else [])
    ensures Filter([a, b], p) == (if p(a) then [a] else []) + (if p(b) then [b] else [])
  {
    hide Filter;
    FilterOne(a, p);
    FilterOne(b, p);
    FilterOne(c, p);
    FilterConcat([a], [b], p);
    FilterConcat([a, b], [c], p);
    assert [a] + [b] == [a, b] && [a, b] + [c] == [a, b, c];
  }

  lemma FlatEntries(a: Entry, b: Entry, c: Entry)
    ensures Flat([a, b, c], EntryKV) == [KV(a.key, a.value), KV(b.key, b.value), KV(c.key, c.value)]
    ensures Flat([a, b], EntryKV) == [KV(a.key, a.value), KV(b.key, b.value)]
  {
    hide Flat;
    FlatHead([a, b, c], EntryKV);
    FlatHead([a, b], EntryKV);
    FlatHead([b, c], EntryKV);
    FlatHead([c], EntryKV);
    FlatHead([b], EntryKV);
    assert [a, b, c][1..] == [b, c] && [a, b][1..] == [b] && [b, c][1..] == [c] && [c][1..] == [] && [b][1..] == [];
    NothingFlat();
  }

  lemma NothingFlat()
    ensures Flat([], EntryKV) == []
  {
  }

  lemma ModeItem(blocks: seq<ParsedBlock>, s: Settings, key: string)
    requires StatesSettings(blocks, s) && IsModeKey(key)
    ensures |Select(Items(blocks), KeyIs(key))| == 1
    ensures Select(Items(blocks), KeyIs(key))[0].kv.value ==
            if key == "do-ip4" then YesNo(s.networkMode != IPV6_MODE)
            else if key == "do-ip6" then YesNo(s.networkMode != IPV4_MODE)
            else YesNo(s.networkMode == IPV6_MODE)
  {
    hide StatesZones, ServerKVs, Filter, Items, Select, YesNo, ProfileSizes, ProfileEntries, Flat, Locals;
    var p := KeyIs(key);
    forall kv: KV | p(kv) ensures ClassOf(kv.key) == ModeKey { }
    FilterSections(s, p, ModeKey);
    var e := NetworkEntries(s);
    FlatEntries(e[0], e[1], e[2]);
    FilterTriple(KV(e[0].key, e[0].value), KV(e[1].key, e[1].value), KV(e[2].key, e[2].value), p);
    OnlyItem(blocks, s, p, Filter(ServerKVs(s), p));
  }

  lemma LowerYesNo(b: bool)
    ensures ToLower(YesNo(b)) == YesNo(b)
  {
  }

  lemma ModeOfStated(blocks: seq<ParsedBlock>, s: Settings)
    requires StatesSettings(blocks, s) && s.networkMode in [IPV4_MODE, DUAL_MODE, IPV6_MODE]
    ensures NetworkModeOf(Items(blocks)) == Some(s.networkMode)
  {
    hide StatesSettings, Items, Select, ToLower;
    ModeItem(blocks, s, "do-ip4");
    ModeItem(blocks, s, "do-ip6");
    ModeItem(blocks, s, "prefer-ip6");
    LowerYesNo(true);
    LowerYesNo(false);
  }

  lemma ProfileItem(blocks: seq<ParsedBlock>, s: Settings, key: string)
    requires StatesSettings(blocks, s) && IsProfileKey(key)
    ensures |Select(Items(blocks), KeyIs(key))| == 1
    ensures Select(Items(blocks), KeyIs(key))[0].kv.value ==
            if key == "rrset-cache-size" then ProfileSizes(s.resourceProfile).value.rrset
            else ProfileSizes(s.resourceProfile).value.message
  {
    hide StatesZones, ServerKVs, Filter, Items, Select, ProfileSizes, NetworkEntries, Flat, Locals;
    var p := KeyIs(key);
    forall kv: KV | p(kv) ensures ClassOf(kv.key) == ProfileKey { }
    FilterSections(s, p, ProfileKey);
    var e := ProfileEntries(s);
    FlatEntries(e[0], e[1], e[1]);
    FilterTriple(KV(e[0].key, e[0].value), KV(e[1].key, e[1].value), KV(e[1].key, e[1].value), p);
    OnlyItem(blocks, s, p, Filter(ServerKVs(s), p));
  }

  /** The presets differ, so the sizes identify the profile. */
  lemma SizesIdentify(profile: string)
    requires ProfileSizes(profile).Some?
    ensures var sizes := ProfileSizes(profile).value; ProfileOfSizes(sizes.rrset, sizes.message) == Some(profile)
  {
    assert "32m"[0] != "64m"[0] && "32m"[0] != "128m"[0] && "64m"[0] != "128m"[0];
  }

  lemma ProfileOfStated(blocks: seq<ParsedBlock>, s: Settings)
    requires StatesSettings(blocks, s)
    ensures ProfileOf(Items(blocks)) == Some(s.resourceProfile)
  {
    hide Items, Select, ServerKVs, StatesZones, ProfileSizes, ProfileOfSizes;
    ProfileItem(blocks, s, "rrset-cache-size");
    ProfileItem(blocks, s, "msg-cache-size");
    SizesIdentify(s.resourceProfile);
  }

  // ---------- reverse policies ----------

  /** Text inside the quotes of a `local-zone` line. */
  predicate PlainName(name: string) { '"' !in name }

  lemma ParseZoneValue(name: string, zoneType: string)
    requires PlainName(name) && zoneType != "" && Trimmed(zoneType)
    ensures ParseLocalZoneValue(ZoneValue(name, zoneType)) == Some(NamedType(name, zoneType))
  {
    hide TrimSpace, FirstIndex;
    var value := ZoneValue(name, zoneType);
    var inside := value[1..];
    assert inside == name + "\" " + zoneType;
    FirstIndexIs(inside, '"', |name|);
    assert value[1..1 + |name|] == name;
    assert value[1 + |name| + 1..] == " " + zoneType;
    TrimSpaceBlanks(" ", zoneType);
  }

  lemma NameCharsArePlain(name: string)
    requires forall c | c in name :: IsNameChar(c)
    ensures PlainName(name)
  {
    assert !IsNameChar('"');
  }

  lemma ReverseNameIsPlain(network: string, k: nat)
    requires k < |ReverseNames(network)|
    ensures PlainName(ReverseNames(network)[k])
  {
    hide ReverseNames;
    ReverseNamesApart(network, network, k, k);
    NameCharsArePlain(ReverseNames(network)[k]);
  }

  lemma ParseReverseValue(network: string, k: nat, mode: string)
    requires k < |ReverseNames(network)|
    ensures ParseLocalZoneValue(ZoneValue(ReverseNames(network)[k], ReverseZoneType(mode))) ==
            Some(NamedType(ReverseNames(network)[k], ReverseZoneType(mode)))
  {
    hide ReverseNames, ParseLocalZoneValue, ZoneValue;
    ReverseNameIsPlain(network, k);
    ParseZoneValue(ReverseNames(network)[k], ReverseZoneType(mode));
  }

  /** Only element `i` of `xs` contributes to the filter. */
  lemma {:induction false} FilterFlatOnly<T>(xs: seq<T>, f: T -> seq<KV>, p: KV -> bool, i: nat, found: seq<KV>)
    requires i <= |xs| && forall j | 0 <= j < |xs| && j != i :: Filter(f(xs[j]), p) == []
    requires i < |xs| ==> Filter(f(xs[i]), p) == found
    ensures Filter(Flat(xs, f), p) == if i < |xs| then found else []
  {
    if xs != [] {
      var n := |xs| - 1;
      FilterFlatOnly(xs[..n], f, p, if i < n then i else n, found);
      FilterConcat(Flat(xs[..n], f), f(xs[n]), p);
    }
  }

  lemma HitOfReverseLine(network: string, k: nat, mode: string, name: string)
    requires k < |ReverseNames(network)|
    ensures var n := ReverseNames(network)[k];
            Filter(ReverseKV(mode)(n), ZoneNamed(name)) ==
            if n == name then [KV("local-zone", ZoneValue(n, ReverseZoneType(mode)))] else []
  {
    hide ReverseNames, ParseLocalZoneValue, ZoneValue, Filter;
    ParseReverseValue(network, k, mode);
    FilterOne(KV("local-zone", ZoneValue(ReverseNames(network)[k], ReverseZoneType(mode))), ZoneNamed(name));
  }

  /** A policy states the type of each reverse name of its own network once, and of no other name. */
  lemma HitOfPolicy(policy: ReverseZonePolicy, network: string, k: nat)
    requires k < |ReverseNames(network)|
    ensures var name := ReverseNames(network)[k];
            Filter(PolicyKV(policy), ZoneNamed(name)) ==
            if policy.network == network then [KV("local-zone", ZoneValue(name, ReverseZoneType(policy.mode)))] else []
  {
    hide ReverseNames, Filter, ZoneNamed, ZoneValue, ReverseKV;
    var name, names := ReverseNames(network)[k], ReverseNames(policy.network);
    forall j | 0 <= j < |names|
      ensures Filter(ReverseKV(policy.mode)(names[j]), ZoneNamed(name)) ==
              if policy.network == network && j == k
              then [KV("local-zone", ZoneValue(name, ReverseZoneType(policy.mode)))] else []
    {
      HitOfReverseLine(policy.network, j, policy.mode, name);
      ReverseNamesApart(policy.network, network, j, k);
    }
    FilterFlatOnly(names, ReverseKV(policy.mode), ZoneNamed(name), if policy.network == network then k else |names|,
                   [KV("local-zone", ZoneValue(name, ReverseZoneType(policy.mode)))]);
  }

  /** The first policy of that network, or the length. */
  function PolicyIndex(policies: seq<ReverseZonePolicy>, network: string): (i: nat)
    ensures i <= |policies| && forall j | 0 <= j < i :: policies[j].network != network
    ensures i < |policies| ==> policies[i].network == network
  {
    if policies == [] || policies[0].network == network then 0 else 1 + PolicyIndex(policies[1..], network)
  }

  /** No local zone is named like a reserved reverse zone. */
  ghost predicate NoReservedLocal(zones: seq<LocalZone>) {
    forall i | 0 <= i < |zones| :: !IsReservedReverseName(zones[i].name)
  }

  ghost predicate PlainLocals(zones: seq<LocalZone>) { forall i | 0 <= i < |zones| :: PlainName(zones[i].name) }

  lemma NoHitInLocal(zone: LocalZone, network: string, k: nat)
    requires k < |ReverseNames(network)| && !IsReservedReverseName(zone.name) && PlainName(zone.name)
    ensures Filter(LocalKV(zone), ZoneNamed(ReverseNames(network)[k])) == []
  {
    hide ReverseNames, Filter, ZoneValue, HostKV, ParseLocalZoneValue, NetworkOf;
    var name := ReverseNames(network)[k];
    var header := KV("local-zone", ZoneValue(zone.name, "static"));
    NetworkOfName(network, k);
    ParseZoneValue(zone.name, "static");
    FilterOne(header, ZoneNamed(name));
    FilterConcat([header], Flat(zone.hosts, HostKV(zone.name)), ZoneNamed(name));
    forall i | 0 <= i < |zone.hosts| ensures Filter(HostKV(zone.name)(zone.hosts[i]), ZoneNamed(name)) == [] {
      HostClass(zone.name, zone.hosts[i]);
      FilterNone(HostKV(zone.name)(zone.hosts[i]), ZoneNamed(name));
    }
    FilterFlatOnly(zone.hosts, HostKV(zone.name), ZoneNamed(name), |zone.hosts|, []);
  }

  /** Each reserved name has one line if the record has a policy for its network, none otherwise. */
  lemma HitsOfRecord(s: Settings, network: string, k: nat)
    requires ProfileSizes(s.resourceProfile).Some? && DistinctNetworks(s.reverseZones)
    requires NoReservedLocal(s.localZones) && PlainLocals(s.localZones) && k < |ReverseNames(network)|
    ensures var name, i := ReverseNames(network)[k], PolicyIndex(s.reverseZones, network);
            Filter(ServerKVs(s), ZoneNamed(name)) ==
            if i == |s.reverseZones| then []
            else [KV("local-zone", ZoneValue(name, ReverseZoneType(s.reverseZones[i].mode)))]
  {
    hide ReverseNames, Filter, ZoneValue, ParseLocalZoneValue, LocalKV, PolicyKV, ServerKVs, ProfileSizes,
      ProfileEntries, NetworkEntries, IsReservedReverseName, PlainName, ReverseZoneType;
    var name, i := ReverseNames(network)[k], PolicyIndex(s.reverseZones, network);
    var p := ZoneNamed(name);
    var found := if i == |s.reverseZones| then []
                 else [KV("local-zone", ZoneValue(name, ReverseZoneType(s.reverseZones[i].mode)))];
    ScopedLiterals();
    FilterSections(s, p, LocalKey);
    FilterConcat(Flat(s.reverseZones, PolicyKV), Flat(s.localZones, LocalKV), p);
    forall j | 0 <= j < |s.reverseZones|
      ensures Filter(PolicyKV(s.reverseZones[j]), p) == if j == i then found else []
    {
      HitOfPolicy(s.reverseZones[j], network, k);
    }
    FilterFlatOnly(s.reverseZones, PolicyKV, p, i, found);
    forall j | 0 <= j < |s.localZones| ensures Filter(LocalKV(s.localZones[j]), p) == [] {
      NoHitInLocal(s.localZones[j], network, k);
    }
    FilterFlatOnly(s.localZones, LocalKV, p, |s.localZones|, []);
  }

  /** The policy extracted for a network is the record's own, or none. */
  lemma PolicyOfStated(blocks: seq<ParsedBlock>, s: Settings, network: string)
    requires StatesSettings(blocks, s) && ValidReverseZones(s.reverseZones) && network in NETWORKS
    requires NoReservedLocal(s.localZones) && PlainLocals(s.localZones)
    ensures var i := PolicyIndex(s.reverseZones, network);
            PolicyOf(Items(blocks), network) == if i < |s.reverseZones| then Some(s.reverseZones[i].mode) else None
  {
    hide ReverseNames, Items, Select, ServerKVs, StatesZones, ZoneNamed, ProfileSizes, ZoneValue, ParseLocalZoneValue,
      NoReservedLocal, PlainLocals, Filter, ReverseZoneType;
    var i := PolicyIndex(s.reverseZones, network);
    NetworksHaveNames(network);
    forall k | 0 <= k < |ReverseNames(network)|
      ensures |Select(Items(blocks), ZoneNamed(ReverseNames(network)[k]))| == if i < |s.reverseZones| then 1 else 0
      ensures i < |s.reverseZones| ==>
                ZoneTypeOf(Select(Items(blocks), ZoneNamed(ReverseNames(network)[k]))[0].kv) ==
                ReverseZoneType(s.reverseZones[i].mode)
    {
      HitsOfRecord(s, network, k);
      var p := ZoneNamed(ReverseNames(network)[k]);
      OnlyItem(blocks, s, p, Filter(ServerKVs(s), p));
      if i < |s.reverseZones| {
        ParseReverseValue(network, k, s.reverseZones[i].mode);
      }
    }
    if i < |s.reverseZones| {
      var mode := s.reverseZones[i].mode;
      assert ValidPolicy(s.reverseZones[i]);
      assert UniformNetwork(Items(blocks), network, ReverseZoneType(mode));
      assert forall t | t != ReverseZoneType(mode) :: !UniformNetwork(Items(blocks), network, t) by {
        assert ZoneTypeOf(Select(Items(blocks), ZoneNamed(ReverseNames(network)[0]))[0].kv) == ReverseZoneType(mode);
      }
      ReverseZoneTypes();
    } else {
      assert forall t :: !UniformNetwork(Items(blocks), network, t) by {
        assert |Select(Items(blocks), ZoneNamed(ReverseNames(network)[0]))| == 0;
      }
    }
  }

  lemma ReverseZoneTypes()
    ensures ReverseZoneType(NXDOMAIN) == "static" && ReverseZoneType(TRANSPARENT) == "transparent"
    ensures "static" != "transparent"
  {
  }
}
