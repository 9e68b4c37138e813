/**
  What an import does to the settings it starts from (import.go:113-246, 793-879): of several lines for one setting
  the last readable one counts, an opt-in needs exactly its own line, and what the file does not state stays.
 */
module UnboundEffects {
  import opened Text
  import opened Seqs
  import opened UnboundSettings
  import opened UnboundParse
  import opened UnboundExtract
  import opened UnboundGroups
  import opened UnboundImport
  import opened UnboundImportLaws
  import opened UnboundVerdicts

  /** The directive of a server block at a place. */
  function DirectiveAt(blocks: seq<ParsedBlock>, p: Place): KV {
    if ServerPlace(blocks, p)
    then KV(blocks[p.block].directives[p.index].key, blocks[p.block].directives[p.index].value)
    else KV("", "")
  }

  ghost predicate Earlier(p: Place, q: Place) { p.block < q.block || (p.block == q.block && p.index < q.index) }

  // ---------- single settings: the last readable line ----------

  function KeyFor(f: Field): string {
    match f
    case QnameMinimisation => "qname-minimisation"
    case Prefetch => "prefetch"
    case PrefetchKey => "prefetch-key"
    case AggressiveNsec => "aggressive-nsec"
    case ServeExpired => "serve-expired"
    case EdnsBufferSize => "edns-buffer-size"
    case Verbosity => "verbosity"
    case ServeExpiredTtl => "serve-expired-ttl"
    case ServeExpiredClientTimeout => "serve-expired-client-timeout"
    case CacheMinTtl => "cache-min-ttl"
    case CacheMaxTtl => "cache-max-ttl"
    case NumThreads => "num-threads"
  }

  /** The line states the setting, with a value that can be read. */
  ghost predicate States(blocks: seq<ParsedBlock>, p: Place, f: Field) {
    ServerPlace(blocks, p) && DirectiveAt(blocks, p).key == KeyFor(f) && Readable(f, DirectiveAt(blocks, p).value)
  }

  predicate Readable(f: Field, value: string) {
    if IsSwitch(f) then ToLower(value) == "yes" || ToLower(value) == "no" else Atoi(value).Some?
  }

  ghost predicate HasValue(c: Settings, f: Field, value: string) {
    if IsSwitch(f) then Switch(c, f) == (ToLower(value) == "yes") else Atoi(value) == Some(Number(c, f))
  }

  /** The last of the first rows that states the setting decides it; without one it is as in `base`. */
  ghost predicate Decided(blocks: seq<ParsedBlock>, f: Field, base: Settings, c: Settings, end: Place) {
    (SameField(c, base, f) && forall p | Earlier(p, end) :: !States(blocks, p, f)) ||
    (exists p :: LastStating(blocks, f, p, end) && HasValue(c, f, DirectiveAt(blocks, p).value))
  }

  ghost predicate LastStating(blocks: seq<ParsedBlock>, f: Field, p: Place, end: Place) {
    States(blocks, p, f) && Earlier(p, end) &&
    forall q | States(blocks, q, f) && Earlier(q, end) :: q == p || Earlier(q, p)
  }

  lemma KeyOfField(f: Field, key: string)
    ensures FieldOf(key) == Some(f) <==> key == KeyFor(f)
    ensures !IsZoneScoped(KeyFor(f))
  {
    KeyStates(f);
  }

  lemma KeyStates(f: Field)
    ensures FieldOf(KeyFor(f)) == Some(f) && !IsZoneScoped(KeyFor(f))
  {
  }

  lemma KeyIsFree(f: Field)
    ensures KeyFor(f) != "local-zone" && KeyFor(f) != "local-data" && KeyFor(f) != "local-data-ptr"
    ensures !IsModeKey(KeyFor(f)) && !IsProfileKey(KeyFor(f))
  {
  }

  /** No extractor takes a line with the key of a single setting or of a forward zone's opt-in. */
  lemma ConsumedKeys(ip: Netip, blocks: seq<ParsedBlock>, p: Place)
    requires p in AllConsumed(ip, blocks)
    ensures ServerPlace(blocks, p)
    ensures var key := DirectiveAt(blocks, p).key;
            key == "local-zone" || key == "local-data" || key == "local-data-ptr" || IsModeKey(key) ||
            IsProfileKey(key)
  {
    hide NetworkModeOf, ProfileOf, PolicyOf, ParseLocalZoneValue, NetworkOf, InGroup;
    if LocalConsumed(ip, blocks, p) {
      LocalConsumedLine(ip, blocks, p);
    }
  }

  /** What one line does to one setting. */
  lemma LineEffect(st: Sweep, names: set<string>, kv: KV, f: Field)
    ensures if kv.key == KeyFor(f) && Readable(f, kv.value)
            then HasValue(Apply(st, names, kv).candidate, f, kv.value)
            else SameField(Apply(st, names, kv).candidate, st.candidate, f)
  {
    hide FieldOf, Atoi, ToLower, SetSwitch, SetNumber, Switch, Number, IsSwitch, IsZoneScoped, OptIn, KeyFor;
    KeyOfField(f, kv.key);
    if FieldOf(kv.key).Some? {
      var g := FieldOf(kv.key).value;
      KeyOfField(g, kv.key);
      if Parses(g, kv.value) {
        if IsSwitch(g) {
          SetSwitchEffect(st.candidate, g, ParseSwitch(kv.value).value, f);
        } else {
          SetNumberEffect(st.candidate, g, Atoi(kv.value).value, f);
        }
      }
    }
  }

  lemma Undecided(blocks: seq<ParsedBlock>, f: Field, base: Settings)
    ensures Decided(blocks, f, base, base, Place(0, 0))
  {
  }

  /** One more row. */
  lemma RowDecides(blocks: seq<ParsedBlock>, f: Field, base: Settings, c: Settings, c': Settings, b: nat, i: nat)
    requires Decided(blocks, f, base, c, Place(b, i))
    requires if States(blocks, Place(b, i), f) then HasValue(c', f, DirectiveAt(blocks, Place(b, i)).value)
             else SameField(c', c, f)
    ensures Decided(blocks, f, base, c', Place(b, i + 1))
  {
    hide States, DirectiveAt, Atoi, ToLower, Switch, Number, IsSwitch;
    var here, next := Place(b, i), Place(b, i + 1);
    assert forall q :: Earlier(q, next) <==> Earlier(q, here) || q == here;
    if States(blocks, here, f) {
      assert LastStating(blocks, f, here, next);
    } else if p :| LastStating(blocks, f, p, here) && HasValue(c, f, DirectiveAt(blocks, p).value) {
      assert LastStating(blocks, f, p, next);
      SameValue(c, c', f, DirectiveAt(blocks, p).value);
    } else {
      SameFieldTrans(c', c, base, f);
    }
  }

  lemma SameValue(c: Settings, c': Settings, f: Field, value: string)
    requires HasValue(c, f, value) && SameField(c', c, f)
    ensures HasValue(c', f, value)
  {
  }

  lemma SameFieldTrans(a: Settings, b: Settings, c: Settings, f: Field)
    requires SameField(a, b, f) && SameField(b, c, f)
    ensures SameField(a, c, f)
  {
  }

  /** After the last row of a block comes the first of the next. */
  lemma BlockDecides(blocks: seq<ParsedBlock>, f: Field, base: Settings, c: Settings, b: nat, i: nat)
    requires Decided(blocks, f, base, c, Place(b, i))
    requires forall k: nat | i <= k :: !States(blocks, Place(b, k), f)
    ensures Decided(blocks, f, base, c, Place(b + 1, 0))
  {
    hide States, DirectiveAt, HasValue, SameField;
    var here, next := Place(b, i), Place(b + 1, 0);
    forall q | States(blocks, q, f) && Earlier(q, next) ensures Earlier(q, here) {
      assert q.block == b ==> q == Place(b, q.index);
    }
    if p :| LastStating(blocks, f, p, here) && HasValue(c, f, DirectiveAt(blocks, p).value) {
      assert LastStating(blocks, f, p, next);
    }
  }

  lemma {:induction false} DirectivesDecide(ip: Netip, blocks: seq<ParsedBlock>, st: Sweep, names: set<string>, b: nat,
                                            n: nat, f: Field, base: Settings)
    requires b < |blocks| && blocks[b].section == "server" && n <= |blocks[b].directives|
    requires Decided(blocks, f, base, st.candidate, Place(b, 0))
    ensures Decided(blocks, f, base,
                    SweepDirectives(st, names, AllConsumed(ip, blocks), b, blocks[b].directives, n).candidate,
                    Place(b, n))
  {
    hide AllConsumed, Apply, DirectiveFinding, DirectiveExpert, Decided, SameField, HasValue;
    if n > 0 {
      DirectivesDecide(ip, blocks, st, names, b, n - 1, f, base);
      var before := SweepDirectives(st, names, AllConsumed(ip, blocks), b, blocks[b].directives, n - 1);
      var p := Place(b, n - 1);
      if p in AllConsumed(ip, blocks) {
        ConsumedKeys(ip, blocks, p);
        KeyIsFree(f);
        SameFieldRefl(before.candidate, f);
        RowDecides(blocks, f, base, before.candidate, before.candidate, b, n - 1);
      } else {
        LineEffect(before, names, KVOf(blocks[b].directives[n - 1]), f);
        RowDecides(blocks, f, base, before.candidate,
                   Apply(before, names, KVOf(blocks[b].directives[n - 1])).candidate, b, n - 1);
      }
    }
  }

  lemma SameFieldRefl(c: Settings, f: Field)
    ensures SameField(c, c, f)
  {
  }

  lemma {:induction false} BlocksDecide(ip: Netip, blocks: seq<ParsedBlock>, st: Sweep, names: set<string>, n: nat,
                                        f: Field, base: Settings)
    requires n <= |blocks| && Decided(blocks, f, base, st.candidate, Place(0, 0))
    ensures Decided(blocks, f, base,
                    SweepBlocks(st, names, AllConsumed(ip, blocks), Mapped(ip, blocks), blocks, n).candidate,
                    Place(n, 0))
  {
    hide AllConsumed, SweepDirectives, Decided, MappedZone, ClauseFinding, ClauseLines;
    if n > 0 {
      BlocksDecide(ip, blocks, st, names, n - 1, f, base);
      var before := SweepBlocks(st, names, AllConsumed(ip, blocks), Mapped(ip, blocks), blocks, n - 1);
      var block := blocks[n - 1];
      if block.section == "server" {
        ServerBlocksAreUnmapped(ip, block);
        DirectivesDecide(ip, blocks, before, names, n - 1, |block.directives|, f, base);
        BlockDecides(blocks, f, base,
                     SweepDirectives(before, names, AllConsumed(ip, blocks), n - 1, block.directives,
                                     |block.directives|).candidate, n - 1, |block.directives|);
      } else {
        BlockDecides(blocks, f, base, before.candidate, n - 1, 0);
      }
    }
  }

  /**
    Every single setting after an import, for every file and any settings before it: the last line of the file that
    states it with a readable value decides it, and without such a line it is what it was.
   */
  lemma LastLineWins(ip: Netip, current: Settings, custom: string, blocks: seq<ParsedBlock>, f: Field)
    ensures var r := ImportOf(ip, current, custom, blocks).settings;
            (SameField(r, current, f) && forall p :: !States(blocks, p, f)) ||
            exists p :: States(blocks, p, f) && (forall q | States(blocks, q, f) :: q == p || Earlier(q, p)) &&
                        HasValue(r, f, DirectiveAt(blocks, p).value)
  {
    hide AllConsumed, Mapped, MappedZones, ZoneNames, SweepBlocks, Combine, SameField, HasValue, ExtractorFindings,
      Adopt, DirectiveAt;
    var zones := MappedZones(ip, blocks);
    var st := Sweep(current, zones, [], [], []);
    Undecided(blocks, f, current);
    BlocksDecide(ip, blocks, st, ZoneNames(zones), |blocks|, f, current);
    var swept := Swept(ip, current, blocks);
    var r := Combine(ip, current, blocks, swept);
    CombineFields(ip, current, blocks, swept, f);
    var end := Place(|blocks|, 0);
    forall p | States(blocks, p, f) ensures Earlier(p, end) { }
    if p :| LastStating(blocks, f, p, end) && HasValue(swept.candidate, f, DirectiveAt(blocks, p).value) {
      SameValue(swept.candidate, r, f, DirectiveAt(blocks, p).value);
    } else {
      SameFieldTrans(r, swept.candidate, current, f);
    }
  }

  // ---------- opt-ins and private domains ----------

  /** A line of a server block before that row states exactly this. */
  ghost predicate SaidBefore(blocks: seq<ParsedBlock>, kv: KV, end: Place) {
    exists p :: Earlier(p, end) && ServerPlace(blocks, p) && DirectiveAt(blocks, p) == kv
  }

  /** A line of some server block states exactly this. */
  ghost predicate Said(blocks: seq<ParsedBlock>, kv: KV) {
    exists p :: ServerPlace(blocks, p) && DirectiveAt(blocks, p) == kv
  }

  /** The zone with the opt-ins that the file has lines for. */
  ghost function WithOptIns(blocks: seq<ParsedBlock>): ForwardZone -> ForwardZone {
    (z: ForwardZone) => z.(allowUnsigned := Said(blocks, KV("domain-insecure", z.name)),
                           allowPrivateAddresses := Said(blocks, KV("private-domain", z.name)))
  }

  /** The zone with the opt-ins said before that row. */
  ghost predicate OptedBefore(blocks: seq<ParsedBlock>, w: ForwardZone, z: ForwardZone, end: Place) {
    w == z.(allowUnsigned := SaidBefore(blocks, KV("domain-insecure", z.name), end),
            allowPrivateAddresses := SaidBefore(blocks, KV("private-domain", z.name), end))
  }

  /** Zones and private domains when the rows before `end` have been read. */
  ghost predicate ScopedBefore(blocks: seq<ParsedBlock>, zones: seq<ForwardZone>, names: set<string>, st: Sweep,
                               end: Place) {
    |st.zones| == |zones| && (forall i | 0 <= i < |zones| :: OptedBefore(blocks, st.zones[i], zones[i], end)) &&
    forall d :: d in st.privateDomains <==> d !in names && SaidBefore(blocks, KV("private-domain", d), end)
  }

  lemma SaidNext(blocks: seq<ParsedBlock>, b: nat, i: nat, kv: KV)
    ensures SaidBefore(blocks, kv, Place(b, i + 1)) <==>
            SaidBefore(blocks, kv, Place(b, i)) ||
            (ServerPlace(blocks, Place(b, i)) && DirectiveAt(blocks, Place(b, i)) == kv)
  {
    hide DirectiveAt, ServerPlace;
    var here, next := Place(b, i), Place(b, i + 1);
    assert forall q :: Earlier(q, next) <==> Earlier(q, here) || q == here;
  }

  lemma SaidNextBlock(blocks: seq<ParsedBlock>, b: nat, i: nat, kv: KV)
    requires forall k: nat | i <= k :: !ServerPlace(blocks, Place(b, k))
    ensures SaidBefore(blocks, kv, Place(b + 1, 0)) <==> SaidBefore(blocks, kv, Place(b, i))
  {
    hide DirectiveAt, ServerPlace;
    var here, next := Place(b, i), Place(b + 1, 0);
    forall q | ServerPlace(blocks, q) && Earlier(q, next) ensures Earlier(q, here) {
      assert q.block == b ==> q == Place(b, q.index);
    }
  }

  lemma ScopedKeysApart()
    ensures "domain-insecure" != "private-domain" && IsZoneScoped("domain-insecure") && IsZoneScoped("private-domain")
  {
    assert "domain-insecure"[0] != "private-domain"[0];
  }

  /** One line: the opt-in of the zones of that name, or one more private domain. */
  lemma ScopedLine(blocks: seq<ParsedBlock>, zones: seq<ForwardZone>, names: set<string>, st: Sweep, b: nat, i: nat)
    requires ServerPlace(blocks, Place(b, i)) && ScopedBefore(blocks, zones, names, st, Place(b, i))
    requires forall k | 0 <= k < |zones| :: zones[k].name in names
    ensures ScopedBefore(blocks, zones, names, Apply(st, names, DirectiveAt(blocks, Place(b, i))), Place(b, i + 1))
  {
    hide DirectiveAt, ServerPlace, SaidBefore, ApplyServer, Earlier;
    ScopedKeysApart();
    var kv := DirectiveAt(blocks, Place(b, i));
    var r := Apply(st, names, kv);
    forall k | 0 <= k < |zones| ensures OptedBefore(blocks, r.zones[k], zones[k], Place(b, i + 1)) {
      SaidNext(blocks, b, i, KV("domain-insecure", zones[k].name));
      SaidNext(blocks, b, i, KV("private-domain", zones[k].name));
    }
    forall d
      ensures d in r.privateDomains <==> d !in names && SaidBefore(blocks, KV("private-domain", d), Place(b, i + 1))
    {
      SaidNext(blocks, b, i, KV("private-domain", d));
    }
  }

  /** A row that says nothing about zones changes nothing. */
  lemma ScopedSkip(blocks: seq<ParsedBlock>, zones: seq<ForwardZone>, names: set<string>, st: Sweep, p: Place, q: Place)
    requires ScopedBefore(blocks, zones, names, st, p)
    requires forall kv: KV | IsZoneScoped(kv.key) :: SaidBefore(blocks, kv, q) <==> SaidBefore(blocks, kv, p)
    ensures ScopedBefore(blocks, zones, names, st, q)
  {
    hide SaidBefore, IsZoneScoped;
    ScopedKeysApart();
    assert forall name :: KV("domain-insecure", name).key == "domain-insecure";
    forall i | 0 <= i < |zones| ensures OptedBefore(blocks, st.zones[i], zones[i], q) {
      assert IsZoneScoped(KV("domain-insecure", zones[i].name).key);
      assert IsZoneScoped(KV("private-domain", zones[i].name).key);
      assert OptedBefore(blocks, st.zones[i], zones[i], p);
    }
    forall d ensures d in st.privateDomains <==> d !in names && SaidBefore(blocks, KV("private-domain", d), q) {
      assert IsZoneScoped(KV("private-domain", d).key);
    }
  }

  lemma {:induction false} DirectivesScoped(ip: Netip, blocks: seq<ParsedBlock>, zones: seq<ForwardZone>,
                                            names: set<string>, st: Sweep, b: nat, n: nat)
    requires b < |blocks| && blocks[b].section == "server" && n <= |blocks[b].directives|
    requires ScopedBefore(blocks, zones, names, st, Place(b, 0))
    requires forall k | 0 <= k < |zones| :: zones[k].name in names
    ensures ScopedBefore(blocks, zones, names,
                         SweepDirectives(st, names, AllConsumed(ip, blocks), b, blocks[b].directives, n), Place(b, n))
  {
    hide AllConsumed, Apply, DirectiveFinding, DirectiveExpert, ScopedBefore, SaidBefore;
    if n > 0 {
      DirectivesScoped(ip, blocks, zones, names, st, b, n - 1);
      var before := SweepDirectives(st, names, AllConsumed(ip, blocks), b, blocks[b].directives, n - 1);
      var p := Place(b, n - 1);
      if p in AllConsumed(ip, blocks) {
        ConsumedKeys(ip, blocks, p);
        forall kv: KV | IsZoneScoped(kv.key)
          ensures SaidBefore(blocks, kv, Place(b, n)) <==> SaidBefore(blocks, kv, p)
        {
          SaidNext(blocks, b, n - 1, kv);
        }
        ScopedSkip(blocks, zones, names, before, p, Place(b, n));
      } else {
        ScopedLine(blocks, zones, names, before, b, n - 1);
        SameScoped(blocks, zones, names, Apply(before, names, DirectiveAt(blocks, p)),
                   SweepDirective(before, names, blocks[b].directives[n - 1]), Place(b, n));
      }
    }
  }

  lemma SameScoped(blocks: seq<ParsedBlock>, zones: seq<ForwardZone>, names: set<string>, x: Sweep, y: Sweep,
                   end: Place)
    requires ScopedBefore(blocks, zones, names, x, end) && x.zones == y.zones && x.privateDomains == y.privateDomains
    ensures ScopedBefore(blocks, zones, names, y, end)
  {
    hide SaidBefore;
  }

  lemma {:induction false} BlocksScoped(ip: Netip, blocks: seq<ParsedBlock>, zones: seq<ForwardZone>,
                                        names: set<string>, st: Sweep, n: nat)
    requires n <= |blocks| && ScopedBefore(blocks, zones, names, st, Place(0, 0))
    requires forall k | 0 <= k < |zones| :: zones[k].name in names
    ensures ScopedBefore(blocks, zones, names,
                         SweepBlocks(st, names, AllConsumed(ip, blocks), Mapped(ip, blocks), blocks, n), Place(n, 0))
  {
    hide AllConsumed, SweepDirectives, ScopedBefore, SaidBefore, MappedZone, ClauseFinding, ClauseLines;
    if n > 0 {
      BlocksScoped(ip, blocks, zones, names, st, n - 1);
      var before := SweepBlocks(st, names, AllConsumed(ip, blocks), Mapped(ip, blocks), blocks, n - 1);
      var after := SweepBlocks(st, names, AllConsumed(ip, blocks), Mapped(ip, blocks), blocks, n);
      var block := blocks[n - 1];
      var rows := if block.section == "server" then |block.directives| else 0;
      forall kv ensures SaidBefore(blocks, kv, Place(n, 0)) <==> SaidBefore(blocks, kv, Place(n - 1, rows)) {
        SaidNextBlock(blocks, n - 1, rows, kv);
      }
      if block.section == "server" {
        ServerBlocksAreUnmapped(ip, block);
        DirectivesScoped(ip, blocks, zones, names, before, n - 1, rows);
      } else {
        SameScoped(blocks, zones, names, before, after, Place(n - 1, rows));
      }
      ScopedSkip(blocks, zones, names, after, Place(n - 1, rows), Place(n, 0));
    }
  }

  /** Mapped clauses state no opt-in themselves. */
  lemma {:induction false} DraftHasNoOptIns(kvs: seq<KV>)
    ensures !DraftOf(kvs).zone.allowUnsigned && !DraftOf(kvs).zone.allowPrivateAddresses
  {
    if kvs != [] {
      DraftHasNoOptIns(kvs[..|kvs| - 1]);
    }
  }

  lemma MappedHaveNoOptIns(ip: Netip, blocks: seq<ParsedBlock>, i: nat)
    requires i < |MappedZones(ip, blocks)|
    ensures !MappedZones(ip, blocks)[i].allowUnsigned && !MappedZones(ip, blocks)[i].allowPrivateAddresses
  {
    hide CleanZone, DraftOf, Flat;
    var b, m := FlatOrigin(blocks, MappedZoneList(ip), i);
    DraftHasNoOptIns(KVs(blocks[b].directives));
  }

  lemma NothingSaid(blocks: seq<ParsedBlock>, kv: KV)
    ensures !SaidBefore(blocks, kv, Place(0, 0))
    ensures SaidBefore(blocks, kv, Place(|blocks|, 0)) <==> Said(blocks, kv)
  {
    forall p | ServerPlace(blocks, p) ensures Earlier(p, Place(|blocks|, 0)) { }
    hide DirectiveAt;
  }

  lemma SweptScoped(ip: Netip, current: Settings, blocks: seq<ParsedBlock>)
    ensures var w := Swept(ip, current, blocks);
            w.zones == Map(MappedZones(ip, blocks), WithOptIns(blocks)) &&
            forall d :: d in w.privateDomains <==>
                        d !in ZoneNames(MappedZones(ip, blocks)) && Said(blocks, KV("private-domain", d))
  {
    hide AllConsumed, Mapped, MappedZones, SweepBlocks, SaidBefore, Said;
    var zones := MappedZones(ip, blocks);
    var names := ZoneNames(zones);
    var st := Sweep(current, zones, [], [], []);
    forall kv
      ensures !SaidBefore(blocks, kv, Place(0, 0))
      ensures SaidBefore(blocks, kv, Place(|blocks|, 0)) <==> Said(blocks, kv)
    {
      NothingSaid(blocks, kv);
    }
    forall i | 0 <= i < |zones| ensures OptedBefore(blocks, zones[i], zones[i], Place(0, 0)) {
      MappedHaveNoOptIns(ip, blocks, i);
    }
    assert ScopedBefore(blocks, zones, names, st, Place(0, 0));
    BlocksScoped(ip, blocks, zones, names, st, |blocks|);
    var w := Swept(ip, current, blocks);
    assert ScopedBefore(blocks, zones, names, w, Place(|blocks|, 0));
    forall i | 0 <= i < |zones| ensures w.zones[i] == WithOptIns(blocks)(zones[i]) {
      assert OptedBefore(blocks, w.zones[i], zones[i], Place(|blocks|, 0));
    }
  }

  // ---------- what an import leaves behind ----------

  /**
    Forward zones after an import: those of the file, each with exactly the opt-ins that the file has a line for (of
    several with one name the last), and the old ones that the file does not name.
   */
  lemma ZonesAfterImport(ip: Netip, current: Settings, custom: string, blocks: seq<ParsedBlock>, f: ForwardZone)
    ensures var stated := Map(MappedZones(ip, blocks), WithOptIns(blocks));
            f in ImportOf(ip, current, custom, blocks).settings.forwardZones <==>
            LastNamed(stated, f, ForwardNameOf) || LeftAlone(current.forwardZones, stated, f, ForwardNameOf)
  {
    hide *;
    SweptScoped(ip, current, blocks);
    SurvivingZones(ip, current, custom, blocks, f, LocalZone("", []));
  }

  lemma {:induction false} MergedDomains(existing: seq<string>, incoming: seq<string>, zones: seq<ForwardZone>)
    ensures existing <= MergeDomains(existing, incoming, zones)
    ensures forall d :: d in MergeDomains(existing, incoming, zones) <==>
                        d in existing || (d in incoming && !ClaimedByZone(d, zones))
  {
    hide ClaimedByZone;
    if incoming != [] {
      var n := |incoming| - 1;
      MergedDomains(existing, incoming[..n], zones);
      assert incoming == incoming[..n] + [incoming[n]];
    }
  }

  /**
    Private domains after an import: the old ones in front and unchanged, and behind them exactly the names that a
    `private-domain` line states, unless the line is the opt-in of a zone or a zone already has the exception.
   */
  lemma DomainsAfterImport(ip: Netip, current: Settings, custom: string, blocks: seq<ParsedBlock>, d: string)
    ensures var r := ImportOf(ip, current, custom, blocks).settings;
            current.privateDomains <= r.privateDomains &&
            (d in r.privateDomains <==>
             d in current.privateDomains ||
             (Said(blocks, KV("private-domain", d)) && !ForwardedHere(ip, blocks, d) &&
              !ClaimedByZone(d, r.forwardZones)))
  {
    hide Swept, LocalZonesIn, MergeByName, Items, MergeDomains, WithPolicy, NetworkModeOf, ProfileOf, Said,
      ExtractorFindings, ClaimedByZone, ForwardedHere, MappedZones, ZoneNames;
    SweptScoped(ip, current, blocks);
    NamesAreForwarded(ip, blocks, d);
    var w := Swept(ip, current, blocks);
    MergedDomains(current.privateDomains, w.privateDomains,
                  MergeByName(current.forwardZones, w.zones, ForwardNameOf));
  }

  /** The key occurs once in the server blocks, with this value. */
  ghost predicate Once(blocks: seq<ParsedBlock>, key: string, value: string) {
    |Select(Items(blocks), KeyIs(key))| == 1 && Select(Items(blocks), KeyIs(key))[0].kv.value == value
  }

  /** The same, whatever the case of the value. */
  ghost predicate OnceLower(blocks: seq<ParsedBlock>, key: string, value: string) {
    |Select(Items(blocks), KeyIs(key))| == 1 && ToLower(Select(Items(blocks), KeyIs(key))[0].kv.value) == value
  }

  ghost predicate Flags(blocks: seq<ParsedBlock>, ip4: string, ip6: string, prefer6: string) {
    OnceLower(blocks, "do-ip4", ip4) && OnceLower(blocks, "do-ip6", ip6) && OnceLower(blocks, "prefer-ip6", prefer6)
  }

  ghost predicate Sizes(blocks: seq<ParsedBlock>, rrset: string, message: string) {
    Once(blocks, "rrset-cache-size", rrset) && Once(blocks, "msg-cache-size", message)
  }

  /** Mode and profile change only when the file states one of the known combinations, each key once. */
  lemma GroupsAfterImport(ip: Netip, current: Settings, custom: string, blocks: seq<ParsedBlock>)
    ensures ImportOf(ip, current, custom, blocks).settings.networkMode ==
            if Flags(blocks, "yes", "no", "no") then "ipv4"
            else if Flags(blocks, "yes", "yes", "no") then "dual"
            else if Flags(blocks, "no", "yes", "yes") then "ipv6" else current.networkMode
    ensures ImportOf(ip, current, custom, blocks).settings.resourceProfile ==
            if Sizes(blocks, "32m", "16m") then "small"
            else if Sizes(blocks, "64m", "32m") then "medium"
            else if Sizes(blocks, "128m", "64m") then "large" else current.resourceProfile
  {
    hide Swept, LocalZonesIn, MergeByName, Items, MergeDomains, WithPolicy, ExtractorFindings, Select, ToLower;
    KeepsLists(ip, current, blocks);
    ProfileTable();
  }

  lemma ProfileTable()
    ensures ProfileSizes(PROFILES[0]) == Some(CacheSizes("32m", "16m")) && PROFILES[0] == "small"
    ensures ProfileSizes(PROFILES[1]) == Some(CacheSizes("64m", "32m")) && PROFILES[1] == "medium"
    ensures ProfileSizes(PROFILES[2]) == Some(CacheSizes("128m", "64m")) && PROFILES[2] == "large"
  {
  }

  /** Every reverse zone of the network has one line, all of that type. */
  ghost predicate AllOfType(blocks: seq<ParsedBlock>, network: string, zoneType: string) {
    forall k | 0 <= k < |ReverseNames(network)| ::
      |Select(Items(blocks), ZoneNamed(ReverseNames(network)[k]))| == 1 &&
      ZoneTypeOf(Select(Items(blocks), ZoneNamed(ReverseNames(network)[k]))[0].kv) == zoneType
  }

  /** The listed networks stay, in order; a mode changes only when the file has the whole network in one type. */
  lemma PoliciesAfterImport(ip: Netip, current: Settings, custom: string, blocks: seq<ParsedBlock>, i: nat)
    requires i < |current.reverseZones|
    ensures var r := ImportOf(ip, current, custom, blocks).settings.reverseZones;
            var old' := current.reverseZones[i];
            |r| == |current.reverseZones| && r[i].network == old'.network &&
            r[i].mode == if old'.network !in ["10.0.0.0/8", "172.16.0.0/12", "192.168.0.0/16"] then old'.mode
                         else if AllOfType(blocks, old'.network, "static") then "nxdomain"
                         else if AllOfType(blocks, old'.network, "transparent") then "transparent" else old'.mode
  {
    hide Swept, LocalZonesIn, MergeByName, Items, MergeDomains, ExtractorFindings, Select, NetworkModeOf, ProfileOf,
      ZoneTypeOf, ReverseNames;
    KeepsLists(ip, current, blocks);
    assert NETWORKS == ["10.0.0.0/8", "172.16.0.0/12", "192.168.0.0/16"];
    assert forall t ::
      AllOfType(blocks, current.reverseZones[i].network, t) <==>
      UniformNetwork(Items(blocks), current.reverseZones[i].network, t);
  }
}
