/**
  The pass over the directives of a rendered settings record that no extractor claims: it writes the single
  settings, collects the private domains and puts the opt-ins back on the forward zones.
 */
module UnboundRenderedSweep {
  import opened Text
  import opened Seqs
  import opened UnboundSettings
  import opened UnboundRender
  import opened UnboundParse
  import opened UnboundRenderedBlocks
  import opened UnboundExtract
  import opened UnboundImport
  import opened UnboundImportLaws
  import opened UnboundRenderedExtract

  predicate IsClaimed(kv: KV) { ClassOf(kv.key).ModeKey? || ClassOf(kv.key).ProfileKey? || ClassOf(kv.key).LocalKey? }

  /** The sweep on directives without places: what no extractor claims is applied in order. */
  function Folded(st: Sweep, names: set<string>, kvs: seq<KV>): Sweep {
    if kvs == [] then st
    else
      var before := Folded(st, names, kvs[..|kvs| - 1]);
      if IsClaimed(kvs[|kvs| - 1]) then before else Apply(before, names, kvs[|kvs| - 1])
  }

  /** Two sweeps that agree on everything but the report. */
  ghost predicate SameCore(x: Sweep, y: Sweep) {
    x.candidate == y.candidate && x.zones == y.zones && x.privateDomains == y.privateDomains
  }

  lemma ApplyCore(x: Sweep, y: Sweep, names: set<string>, kv: KV)
    requires SameCore(x, y)
    ensures SameCore(Apply(x, names, kv), Apply(y, names, kv)) && Apply(x, names, kv).expert == x.expert
  {
    hide ApplyServer, OptIn, IsZoneScoped;
  }

  /** No unclaimed directive is left to the expert. */
  ghost predicate NoExpert(names: set<string>, kvs: seq<KV>) {
    forall i | 0 <= i < |kvs| :: IsClaimed(kvs[i]) || DispositionOf(names, kvs[i]) != Expert
  }

  ghost predicate ClaimsExactly(consumed: iset<Place>, b: nat, kvs: seq<KV>) {
    forall i: nat | i < |kvs| :: Place(b, i) in consumed <==> IsClaimed(kvs[i])
  }

  lemma {:induction false} SweepIsFolded(st: Sweep, names: set<string>, consumed: iset<Place>, b: nat,
                                        ds: seq<ParsedDirective>, n: nat)
    requires n <= |ds| && ClaimsExactly(consumed, b, KVs(ds)) && NoExpert(names, KVs(ds))
    ensures SameCore(SweepDirectives(st, names, consumed, b, ds, n), Folded(st, names, KVs(ds)[..n]))
    ensures SweepDirectives(st, names, consumed, b, ds, n).expert == st.expert
  {
    hide Apply, DispositionOf, IsClaimed, DirectiveFinding;
    if n > 0 {
      SweepIsFolded(st, names, consumed, b, ds, n - 1);
      assert KVs(ds)[..n][..n - 1] == KVs(ds)[..n - 1] && KVs(ds)[..n][n - 1] == KVOf(ds[n - 1]) == KVs(ds)[n - 1];
      ApplyCore(SweepDirectives(st, names, consumed, b, ds, n - 1), Folded(st, names, KVs(ds)[..n - 1]), names,
                KVOf(ds[n - 1]));
    }
  }

  lemma {:induction false} FoldedConcat(st: Sweep, names: set<string>, a: seq<KV>, b: seq<KV>)
    ensures Folded(st, names, a + b) == Folded(Folded(st, names, a), names, b)
  {
    hide Apply, IsClaimed;
    if b == [] {
      assert a + b == a;
    } else {
      var n := |b| - 1;
      FoldedConcat(st, names, a, b[..n]);
      assert (a + b)[..|a + b| - 1] == a + b[..n] && (a + b)[|a + b| - 1] == b[n];
    }
  }

  lemma {:induction false} FoldedClaimed(st: Sweep, names: set<string>, kvs: seq<KV>)
    requires forall i | 0 <= i < |kvs| :: IsClaimed(kvs[i])
    ensures Folded(st, names, kvs) == st
  {
    hide Apply, IsClaimed;
    if kvs != [] {
      FoldedClaimed(st, names, kvs[..|kvs| - 1]);
    }
  }

  lemma ClaimedClass(kvs: seq<KV>, c: KeyClass)
    requires AllOf(kvs, c) && !c.Setting? && !c.ScopedKey?
    ensures forall i | 0 <= i < |kvs| :: IsClaimed(kvs[i])
  {
    hide ClassOf;
  }

  // ---------- single settings ----------

  /** The entry states one of the record's settings, or is one of the two fixed log switches. */
  ghost predicate StatesEntry(s: Settings, e: Entry) {
    !IsZoneScoped(e.key) && !IsClaimed(KV(e.key, e.value)) &&
    match FieldOf(e.key)
    case Some(f) =>
      if IsSwitch(f) then ParseSwitch(e.value) == Some(Switch(s, f)) else Atoi(e.value) == Some(Number(s, f))
    case None => UnguidedDisposition(KV(e.key, e.value)) == Blocked
  }

  ghost predicate StatesEntries(s: Settings, entries: seq<Entry>) {
    forall i | 0 <= i < |entries| :: StatesEntry(s, entries[i])
  }

  ghost predicate Covers(entries: seq<Entry>, f: Field) {
    exists i | 0 <= i < |entries| :: FieldOf(entries[i].key) == Some(f)
  }

  /** What applying one entry changes: its own field, which then agrees with the record. */
  lemma EntryEffect(st: Sweep, names: set<string>, s: Settings, e: Entry, g: Field)
    requires StatesEntry(s, e)
    ensures var r := Apply(st, names, KV(e.key, e.value));
            r.zones == st.zones && r.privateDomains == st.privateDomains && r.expert == st.expert &&
            SameLists(r.candidate, st.candidate) &&
            (if FieldOf(e.key) == Some(g) then SameField(r.candidate, s, g)
             else SameField(r.candidate, st.candidate, g))
  {
    hide FieldOf, ParseSwitch, Atoi, SetSwitch, SetNumber, Switch, Number, IsSwitch, UnguidedDisposition, IsClaimed,
      IsZoneScoped;
    ApplyKeepsLists(st, names, KV(e.key, e.value));
    match FieldOf(e.key)
    case None =>
    case Some(f) =>
      if IsSwitch(f) {
        SetSwitchEffect(st.candidate, f, Switch(s, f), g);
      } else {
        SetNumberEffect(st.candidate, f, Number(s, f), g);
      }
  }

  lemma {:induction false} EntriesFold(st: Sweep, names: set<string>, s: Settings, entries: seq<Entry>, g: Field)
    requires StatesEntries(s, entries)
    ensures var r := Folded(st, names, Flat(entries, EntryKV));
            r.zones == st.zones && r.privateDomains == st.privateDomains &&
            SameLists(r.candidate, st.candidate) && (Covers(entries, g) ==> SameField(r.candidate, s, g))
  {
    hide FieldOf, StatesEntry, Apply, SameField, SameLists, IsClaimed;
    if entries == [] {
      SameListsRefl(st.candidate);
    } else {
      var n := |entries| - 1;
      EntriesFold(st, names, s, entries[..n], g);
      var before := Folded(st, names, Flat(entries[..n], EntryKV));
      var kv := KV(entries[n].key, entries[n].value);
      FoldedConcat(st, names, Flat(entries[..n], EntryKV), [kv]);
      FoldedOne(before, names, kv);
      assert StatesEntry(s, entries[n]);
      EntryUnclaimed(s, entries[n]);
      EntryEffect(before, names, s, entries[n], g);
      SameListsTrans(Apply(before, names, kv).candidate, before.candidate, st.candidate);
      if Covers(entries, g) && FieldOf(entries[n].key) != Some(g) {
        var i :| 0 <= i < |entries| && FieldOf(entries[i].key) == Some(g);
        assert entries[..n][i] == entries[i];
        SameFieldTrans(Apply(before, names, kv).candidate, before.candidate, s, g);
      }
    }
  }

  lemma EntryUnclaimed(s: Settings, e: Entry)
    requires StatesEntry(s, e)
    ensures !IsClaimed(KV(e.key, e.value))
  {
  }

  lemma SameListsRefl(a: Settings)
    ensures SameLists(a, a)
  {
  }

  lemma SameListsTrans(a: Settings, b: Settings, c: Settings)
    requires SameLists(a, b) && SameLists(b, c)
    ensures SameLists(a, c)
  {
  }

  lemma SameFieldTrans(a: Settings, b: Settings, c: Settings, f: Field)
    requires SameField(a, b, f) && SameField(b, c, f)
    ensures SameField(a, c, f)
  {
  }

  lemma FoldedOne(st: Sweep, names: set<string>, kv: KV)
    ensures Folded(st, names, [kv]) == if IsClaimed(kv) then st else Apply(st, names, kv)
    ensures Folded(st, names, []) == st
  {
    assert [kv][..0] == [];
  }

  lemma SwitchKeys()
    ensures FieldOf("qname-minimisation") == Some(QnameMinimisation) && FieldOf("prefetch") == Some(Prefetch)
    ensures FieldOf("prefetch-key") == Some(PrefetchKey) && FieldOf("aggressive-nsec") == Some(AggressiveNsec)
    ensures FieldOf("serve-expired") == Some(ServeExpired)
  {
  }

  lemma NumberKeys()
    ensures FieldOf("edns-buffer-size") == Some(EdnsBufferSize) && FieldOf("verbosity") == Some(Verbosity)
    ensures FieldOf("serve-expired-ttl") == Some(ServeExpiredTtl)
    ensures FieldOf("serve-expired-client-timeout") == Some(ServeExpiredClientTimeout)
  {
  }

  lemma MoreNumberKeys()
    ensures FieldOf("cache-min-ttl") == Some(CacheMinTtl) && FieldOf("cache-max-ttl") == Some(CacheMaxTtl)
    ensures FieldOf("num-threads") == Some(NumThreads)
  {
  }

  lemma LogKeys()
    ensures FieldOf("log-queries").None? && FieldOf("log-replies").None?
    ensures UnguidedDisposition(KV("log-queries", "no")) == Blocked &&
            UnguidedDisposition(KV("log-replies", "no")) == Blocked
  {
    assert BLOCKED_BEHAVIOUR[6] == "log-queries" && BLOCKED_BEHAVIOUR[7] == "log-replies";
  }

  lemma FieldKeyIsFree(key: string)
    requires ClassOf(key) == Setting
    ensures !IsZoneScoped(key) && forall v :: !IsClaimed(KV(key, v))
  {
  }

  lemma SwitchStates(s: Settings, remark: Option<Remark>, key: string, f: Field)
    requires FieldOf(key) == Some(f) && IsSwitch(f) && ClassOf(key) == Setting
    ensures StatesEntry(s, Entry(remark, key, YesNo(Switch(s, f))))
  {
    hide FieldOf, ClassOf, Switch, IsSwitch, IsClaimed, IsZoneScoped;
    FieldKeyIsFree(key);
    assert ToLower(YesNo(Switch(s, f))) == YesNo(Switch(s, f));
  }

  lemma NumberStates(s: Settings, remark: Option<Remark>, key: string, f: Field)
    requires FieldOf(key) == Some(f) && !IsSwitch(f) && ClassOf(key) == Setting && 0 <= Number(s, f) <= INT64_MAX
    ensures StatesEntry(s, Entry(remark, key, Itoa(Number(s, f))))
  {
    hide FieldOf, ClassOf, Number, IsSwitch, IsClaimed, IsZoneScoped, Itoa, Atoi;
    FieldKeyIsFree(key);
    AtoiOfItoa(Number(s, f));
  }

  lemma LogStates(s: Settings, key: string)
    requires FieldOf(key).None? && UnguidedDisposition(KV(key, "no")) == Blocked && ClassOf(key) == Setting
    ensures StatesEntry(s, Entry(None, key, "no"))
  {
    hide FieldOf, ClassOf, UnguidedDisposition, IsClaimed, IsZoneScoped;
    FieldKeyIsFree(key);
  }

  lemma BehaviourStates(s: Settings)
    requires 0 <= s.ednsBufferSize <= 4096 && 0 <= s.logVerbosity <= 1
    ensures StatesEntries(s, BehaviourEntries(s))
  {
    hide FieldOf, ClassOf, YesNo, Itoa, StatesEntry, UnguidedDisposition;
    SwitchKeys();
    NumberKeys();
    LogKeys();
    BehaviourClass(s);
    var es := BehaviourEntries(s);
    assert forall i | 0 <= i < |es| :: ClassOf(es[i].key) == Setting;
    SwitchStates(s, Some(OnQname), es[0].key, QnameMinimisation);
    SwitchStates(s, Some(OnPrefetch), es[1].key, Prefetch);
    SwitchStates(s, Some(OnPrefetchKey), es[2].key, PrefetchKey);
    SwitchStates(s, Some(OnNsec), es[3].key, AggressiveNsec);
    NumberStates(s, Some(OnEdns), es[4].key, EdnsBufferSize);
    NumberStates(s, Some(OnVerbosity), es[5].key, Verbosity);
    LogStates(s, es[6].key);
    LogStates(s, es[7].key);
  }

  ghost predicate CacheInRange(s: Settings) {
    0 <= s.serveExpiredTtl <= INT64_MAX && 0 <= s.serveExpiredClientTimeout <= INT64_MAX &&
    0 <= s.cacheMinTtl <= INT64_MAX && 0 <= s.cacheMaxTtl <= INT64_MAX && 0 <= s.threads <= INT64_MAX
  }

  lemma CacheStates(s: Settings)
    requires CacheInRange(s)
    ensures StatesEntries(s, CacheEntries(s))
  {
    hide FieldOf, ClassOf, YesNo, Itoa, StatesEntry;
    SwitchKeys();
    NumberKeys();
    MoreNumberKeys();
    CacheClass(s);
    var es := CacheEntries(s);
    assert forall i | 0 <= i < |es| :: ClassOf(es[i].key) == Setting;
    SwitchStates(s, Some(OnServeExpired), es[0].key, ServeExpired);
    NumberStates(s, Some(OnExpiredTtl), es[1].key, ServeExpiredTtl);
    NumberStates(s, Some(OnExpiredTimeout), es[2].key, ServeExpiredClientTimeout);
    NumberStates(s, Some(OnMinTtl), es[3].key, CacheMinTtl);
    NumberStates(s, Some(OnMaxTtl), es[4].key, CacheMaxTtl);
    NumberStates(s, Some(OnThreads), es[5].key, NumThreads);
  }

  /** Between them the entries state every single setting. */
  lemma EveryFieldCovered(s: Settings, f: Field)
    ensures Covers(BehaviourEntries(s), f) || Covers(CacheEntries(s), f)
  {
    hide FieldOf, YesNo, Itoa;
    SwitchKeys();
    NumberKeys();
    MoreNumberKeys();
    var b, c := BehaviourEntries(s), CacheEntries(s);
    match f
    case QnameMinimisation => assert FieldOf(b[0].key) == Some(f);
    case Prefetch => assert FieldOf(b[1].key) == Some(f);
    case PrefetchKey => assert FieldOf(b[2].key) == Some(f);
    case AggressiveNsec => assert FieldOf(b[3].key) == Some(f);
    case EdnsBufferSize => assert FieldOf(b[4].key) == Some(f);
    case Verbosity => assert FieldOf(b[5].key) == Some(f);
    case ServeExpired => assert FieldOf(c[0].key) == Some(f);
    case ServeExpiredTtl => assert FieldOf(c[1].key) == Some(f);
    case ServeExpiredClientTimeout => assert FieldOf(c[2].key) == Some(f);
    case CacheMinTtl => assert FieldOf(c[3].key) == Some(f);
    case CacheMaxTtl => assert FieldOf(c[4].key) == Some(f);
    case NumThreads => assert FieldOf(c[5].key) == Some(f);
  }

  lemma HeadFold(st: Sweep, names: set<string>, s: Settings)
    requires 0 <= s.ednsBufferSize <= 4096 && 0 <= s.logVerbosity <= 1 && CacheInRange(s)
    ensures var r := Folded(st, names, Head(s));
            r.zones == st.zones && r.privateDomains == st.privateDomains && SameLists(r.candidate, st.candidate) &&
            forall f: Field :: SameField(r.candidate, s, f)
  {
    hide FieldOf, BehaviourEntries, CacheEntries, SameField, SameLists, StatesEntry, Folded, CacheInRange, EntryKV;
    var b, c := BehaviourEntries(s), CacheEntries(s);
    BehaviourStates(s);
    CacheStates(s);
    FlatConcat(b, c, EntryKV);
    forall f: Field ensures SameField(Folded(st, names, Head(s)).candidate, s, f) {
      EveryFieldCovered(s, f);
      CoversConcat(b, c, f);
      EntriesFold(st, names, s, b + c, f);
    }
    EntriesFold(st, names, s, b + c, Prefetch);
  }

  lemma CoversConcat(b: seq<Entry>, c: seq<Entry>, f: Field)
    requires Covers(b, f) || Covers(c, f)
    ensures Covers(b + c, f)
  {
    hide FieldOf;
    if Covers(b, f) {
      var i :| 0 <= i < |b| && FieldOf(b[i].key) == Some(f);
      assert (b + c)[i] == b[i];
    } else {
      var i :| 0 <= i < |c| && FieldOf(c[i].key) == Some(f);
      assert (b + c)[|b| + i] == c[i];
    }
  }

  // ---------- private domains and opt-ins ----------

  ghost predicate Outside(domains: seq<string>, names: set<string>) {
    forall i | 0 <= i < |domains| :: domains[i] !in names
  }

  lemma ScopedUnclaimed(v: string)
    ensures !IsClaimed(KV("private-domain", v)) && !IsClaimed(KV("domain-insecure", v))
    ensures IsZoneScoped("private-domain") && IsZoneScoped("domain-insecure")
  {
    ScopedLiterals();
  }

  lemma {:induction false} PrivateFold(st: Sweep, names: set<string>, domains: seq<string>)
    requires Outside(domains, names)
    ensures Folded(st, names, Flat(domains, PrivateKV)) == st.(privateDomains := st.privateDomains + domains)
  {
    hide ApplyServer, OptIn, IsClaimed, IsZoneScoped;
    if domains == [] {
      assert st.privateDomains + [] == st.privateDomains;
    } else {
      var n := |domains| - 1;
      PrivateFold(st, names, domains[..n]);
      FoldedConcat(st, names, Flat(domains[..n], PrivateKV), PrivateKV(domains[n]));
      FoldedOne(Folded(st, names, Flat(domains[..n], PrivateKV)), names, KV("private-domain", domains[n]));
      ScopedUnclaimed(domains[n]);
      assert st.privateDomains + domains[..n] + [domains[n]] == st.privateDomains + domains;
    }
  }

  /** The zones whose opt-ins have been read, then the others without theirs. */
  function Restored(zones: seq<ForwardZone>, k: nat): seq<ForwardZone>
    requires k <= |zones|
  {
    zones[..k] + Map(zones[k..], Bare)
  }

  /** One opt-in directive changes only the zone it names. */
  lemma OptInAt(zones: seq<ForwardZone>, key: string, name: string, k: nat)
    requires k < |zones| && zones[k].name == name && forall i | 0 <= i < |zones| && i != k :: zones[i].name != name
    ensures Map(zones, OptIn(key, name)) == zones[k := OptIn(key, name)(zones[k])]
  {
  }

  lemma OptInStep(st: Sweep, names: set<string>, zones: seq<ForwardZone>, k: nat)
    requires k < |zones| && zones[k].name in names && DistinctForwardNames(zones) && st.zones == Restored(zones, k)
    ensures Folded(st, names, OptInKV(zones[k])) == st.(zones := Restored(zones, k + 1))
  {
    hide IsClaimed, IsZoneScoped, Folded, Restored, ApplyServer;
    var zone := zones[k];
    var a := if zone.allowUnsigned then [KV("domain-insecure", zone.name)] else [];
    var b := if zone.allowPrivateAddresses then [KV("private-domain", zone.name)] else [];
    FoldedConcat(st, names, a, b);
    ScopedUnclaimed(zone.name);
    RestoredShape(zones, k);
    var first := Folded(st, names, a);
    var mid := Bare(zone).(allowUnsigned := zone.allowUnsigned);
    FoldedOne(st, names, KV("domain-insecure", zone.name));
    OptInAt(st.zones, "domain-insecure", zone.name, k);
    assert first == st.(zones := st.zones[k := mid]);
    FoldedOne(first, names, KV("private-domain", zone.name));
    OptInAt(first.zones, "private-domain", zone.name, k);
    assert Folded(st, names, OptInKV(zone)) == st.(zones := st.zones[k := zone]);
  }

  lemma RestoredShape(zones: seq<ForwardZone>, k: nat)
    requires k < |zones| && DistinctForwardNames(zones)
    ensures var r := Restored(zones, k);
            |r| == |zones| && r[k] == Bare(zones[k]) && r[k := zones[k]] == Restored(zones, k + 1) &&
            forall i | 0 <= i < |zones| :: r[i].name == zones[i].name
  {
    hide Restored, Bare;
    RestoredAt(zones, k);
    RestoredAt(zones, k + 1);
    BareKeepsNames(zones);
    var r, next := Restored(zones, k), Restored(zones, k + 1);
    assert r[k := zones[k]] == next;
  }

  lemma RestoredAt(zones: seq<ForwardZone>, k: nat)
    requires k <= |zones|
    ensures |Restored(zones, k)| == |zones|
    ensures forall i | 0 <= i < |zones| :: Restored(zones, k)[i] == if i < k then zones[i] else Bare(zones[i])
  {
    hide Bare;
  }

  lemma BareKeepsNames(zones: seq<ForwardZone>)
    ensures forall i | 0 <= i < |zones| :: Bare(zones[i]).name == zones[i].name
  {
  }

  lemma {:induction false} OptInFold(st: Sweep, names: set<string>, zones: seq<ForwardZone>, k: nat)
    requires k <= |zones| && DistinctForwardNames(zones) && st.zones == Restored(zones, 0)
    requires forall i | 0 <= i < |zones| :: zones[i].name in names
    ensures Folded(st, names, Flat(zones[..k], OptInKV)) == st.(zones := Restored(zones, k))
  {
    hide Folded, OptInKV, Restored;
    if k == 0 {
      assert zones[..0] == [];
      FoldedOne(st, names, KV("", ""));
    } else {
      OptInFold(st, names, zones, k - 1);
      FlatSnoc(zones, k - 1, OptInKV);
      FoldedConcat(st, names, Flat(zones[..k - 1], OptInKV), OptInKV(zones[k - 1]));
      OptInStep(st.(zones := Restored(zones, k - 1)), names, zones, k - 1);
    }
  }

  // ---------- the whole server block ----------

  lemma ClaimedFold(st: Sweep, names: set<string>, kvs: seq<KV>, c: KeyClass)
    requires AllOf(kvs, c) && !c.Setting? && !c.ScopedKey?
    ensures Folded(st, names, kvs) == st
  {
    hide AllOf, Folded, IsClaimed;
    ClaimedClass(kvs, c);
    FoldedClaimed(st, names, kvs);
  }

  /** The sweep of the record's directives: all its single settings, and its scoped lines after them. */
  lemma ServerFold(st: Sweep, names: set<string>, s: Settings)
    requires ProfileSizes(s.resourceProfile).Some?
    ensures Folded(st, names, ServerKVs(s)) == Folded(Folded(st, names, Head(s)), names, Scoped(s))
  {
    SectionsInOrder(s);
    SectionClasses(s);
    hide *;
    var p, m := Flat(ProfileEntries(s), EntryKV), Flat(NetworkEntries(s), EntryKV);
    GroupsAre(s);
    FoldedConcat(st, names, Head(s) + Groups(s) + Scoped(s), Locals(s));
    FoldedConcat(st, names, Head(s) + Groups(s), Scoped(s));
    FoldedConcat(st, names, Head(s), Groups(s));
    FoldedConcat(Folded(st, names, Head(s)), names, p, m);
    ClaimedFold(Folded(st, names, Head(s)), names, p, ProfileKey);
    ClaimedFold(Folded(st, names, Head(s)), names, m, ModeKey);
    ClaimedFold(Folded(Folded(st, names, Head(s)), names, Scoped(s)), names, Locals(s), LocalKey);
  }

  /** The scoped lines restore the opt-ins and collect the private domains. */
  lemma ScopedFold(st: Sweep, names: set<string>, s: Settings)
    requires DistinctForwardNames(s.forwardZones) && st.zones == Map(s.forwardZones, Bare)
    requires Outside(s.privateDomains, names) && forall i | 0 <= i < |s.forwardZones| :: s.forwardZones[i].name in names
    ensures Folded(st, names, Scoped(s)) ==
            st.(zones := s.forwardZones, privateDomains := st.privateDomains + s.privateDomains)
  {
    hide Folded, OptInKV, PrivateKV, Flat;
    var zones := s.forwardZones;
    FoldedConcat(st, names, Flat(s.privateDomains, PrivateKV), Flat(zones, OptInKV));
    PrivateFold(st, names, s.privateDomains);
    assert zones[..0] == [] && zones[0..] == zones && Restored(zones, 0) == Map(zones, Bare);
    assert zones[..|zones|] == zones && zones[|zones|..] == [] && Restored(zones, |zones|) == zones;
    OptInFold(st.(privateDomains := st.privateDomains + s.privateDomains), names, zones, |zones|);
  }
}
