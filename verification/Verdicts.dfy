/**
  The ownership table of the importer, key by key (import.go:56-105, 783-879; custom.go:340-390): what becomes of
  a directive of a server block that no extractor has taken, and of a clause that is no server block.
 */
module UnboundVerdicts {
  import opened Text
  import opened Seqs
  import opened UnboundSettings
  import opened UnboundParse
  import opened UnboundExtract
  import opened UnboundGroups
  import opened UnboundImport
  import opened UnboundImportLaws

  const SWITCHES: seq<string> := ["qname-minimisation", "prefetch", "prefetch-key", "aggressive-nsec", "serve-expired"]

  const NUMBERS: seq<string> :=
    ["edns-buffer-size", "verbosity", "serve-expired-ttl", "serve-expired-client-timeout", "cache-min-ttl",
     "cache-max-ttl", "num-threads"]

  /** Set to `yes` by the image. */
  const ENFORCED: seq<string> :=
    ["hide-identity", "hide-version", "harden-glue", "harden-dnssec-stripped", "harden-below-nxdomain"]

  const TRUST_FILES: seq<string> := ["root-hints", "auto-trust-anchor-file", "trust-anchor-file"]

  const FILES_AND_PORTS: seq<string> :=
    ["include", "include-toplevel", "chroot", "directory", "username", "logfile", "pidfile", "interface", "port"]

  const CONTROL: seq<string> :=
    ["remote-control", "control-enable", "control-interface", "server-key-file", "server-cert-file",
     "control-key-file", "control-cert-file"]

  const VALIDATION_AND_TLS: seq<string> :=
    ["module-config", "val-permissive-mode", "tls-service-key", "tls-service-pem", "tls-port"]

  const QUERY_LOGS: seq<string> := ["log-queries", "log-replies"]

  /** What may not be adopted from a browser at all. */
  predicate Closed(key: string) {
    key in FILES_AND_PORTS || key in CONTROL || key in VALIDATION_AND_TLS || key in QUERY_LOGS
  }

  /** Parts of a guided combination that was not recognised. */
  const LEFTOVERS: seq<string> := ["do-ip4", "do-ip6", "prefer-ip6", "rrset-cache-size", "msg-cache-size"]

  /** The clauses that open a control surface, load code or log queries. */
  const CLOSED_CLAUSES: seq<string> := ["remote-control", "python", "dynlib", "dnstap"]

  /** Some forward-zone clause of the file is taken over under that name. */
  ghost predicate ForwardedHere(ip: Netip, blocks: seq<ParsedBlock>, name: string) {
    exists b | 0 <= b < |blocks| :: MappedZone(ip, blocks[b]).Some? && MappedZone(ip, blocks[b]).value.name == name
  }

  ghost function Verdict(ip: Netip, blocks: seq<ParsedBlock>, key: string, value: string): Disposition {
    if key == "private-domain" then Guided
    else if key == "domain-insecure" then (if ForwardedHere(ip, blocks, value) then Guided else Expert)
    else if key in SWITCHES then (if ToLower(value) == "yes" || ToLower(value) == "no" then Guided else Blocked)
    else if key in NUMBERS then (if Atoi(value).Some? then Guided else Blocked)
    else if key in ENFORCED then (if value == "yes" then FixedBase else Blocked)
    else if key == "unwanted-reply-threshold" then (if value == "10000000" then FixedBase else Blocked)
    else if key in TRUST_FILES then FixedBase
    else if Closed(key) || key in LEFTOVERS then Blocked
    else Expert
  }

  lemma NamesAreForwarded(ip: Netip, blocks: seq<ParsedBlock>, name: string)
    ensures name in ZoneNames(MappedZones(ip, blocks)) <==> ForwardedHere(ip, blocks, name)
  {
    hide MappedZone, Flat;
    var zones := MappedZones(ip, blocks);
    if name in ZoneNames(zones) {
      var i :| 0 <= i < |zones| && zones[i].name == name;
      var b, m := FlatOrigin(blocks, MappedZoneList(ip), i);
      assert MappedZone(ip, blocks[b]).Some? && MappedZone(ip, blocks[b]).value == zones[i];
    }
    if ForwardedHere(ip, blocks, name) {
      var b :| 0 <= b < |blocks| && MappedZone(ip, blocks[b]).Some? && MappedZone(ip, blocks[b]).value.name == name;
      FlatMember(blocks, MappedZoneList(ip), b);
      var z := MappedZone(ip, blocks[b]).value;
      assert z in MappedZoneList(ip)(blocks[b]);
      var i :| 0 <= i < |zones| && zones[i] == z;
    }
  }

  lemma FieldKeys(key: string)
    ensures key in SWITCHES <==> FieldOf(key).Some? && IsSwitch(FieldOf(key).value)
    ensures key in NUMBERS <==> FieldOf(key).Some? && !IsSwitch(FieldOf(key).value)
  {
    assert SWITCHES[0] == "qname-minimisation" && SWITCHES[1] == "prefetch" && SWITCHES[2] == "prefetch-key";
    assert SWITCHES[3] == "aggressive-nsec" && SWITCHES[4] == "serve-expired";
    assert NUMBERS[0] == "edns-buffer-size" && NUMBERS[1] == "verbosity" && NUMBERS[2] == "serve-expired-ttl";
    assert NUMBERS[3] == "serve-expired-client-timeout" && NUMBERS[4] == "cache-min-ttl";
    assert NUMBERS[5] == "cache-max-ttl" && NUMBERS[6] == "num-threads";
  }

  lemma TrustRows(key: string)
    ensures key in BLOCKED_TRUST <==> key in TRUST_FILES || key in VALIDATION_AND_TLS || key == "domain-insecure"
  {
    var b, v := BLOCKED_TRUST, VALIDATION_AND_TLS;
    assert b[0] == TRUST_FILES[0] && b[1] == TRUST_FILES[1] && b[2] == TRUST_FILES[2];
    assert b[3] == v[0] && b[4] == v[1] && b[5] == "domain-insecure" && b[6] == v[2] && b[7] == v[3] && b[8] == v[4];
  }

  lemma BehaviourRows(key: string)
    ensures key in BLOCKED_BEHAVIOUR <==>
            key in SWITCHES[..4] || key in NUMBERS[..2] || key in QUERY_LOGS
  {
    var b := BLOCKED_BEHAVIOUR;
    assert b[..4] == SWITCHES[..4] && b[4..6] == NUMBERS[..2] && b[6..] == QUERY_LOGS;
    assert b == b[..4] + b[4..6] + b[6..];
  }

  lemma CacheRows(key: string)
    ensures key in BLOCKED_CACHE <==> key in SWITCHES[4..] || key in NUMBERS[2..] || key in LEFTOVERS
  {
    var b := BLOCKED_CACHE;
    assert b[..1] == SWITCHES[4..] && b[1..6] == NUMBERS[2..];
    assert b[6] == LEFTOVERS[3] && b[7] == LEFTOVERS[4];
    assert b[8] == LEFTOVERS[0] && b[9] == LEFTOVERS[1] && b[10] == LEFTOVERS[2];
    assert b[6..8] == LEFTOVERS[3..] && b[8..] == LEFTOVERS[..3];
    assert b == b[..1] + b[1..6] + b[6..8] + b[8..] && LEFTOVERS == LEFTOVERS[..3] + LEFTOVERS[3..];
  }

  /** The refused directives are the closed ones, the leftovers, the trust files, the guided settings and one more. */
  lemma BlockedKeys(key: string)
    ensures key in BLOCKED_DIRECTIVES <==>
            Closed(key) || key in LEFTOVERS || key in TRUST_FILES || key in SWITCHES || key in NUMBERS ||
            key == "domain-insecure"
  {
    TrustRows(key);
    BehaviourRows(key);
    CacheRows(key);
    assert BLOCKED_FILES == FILES_AND_PORTS && BLOCKED_CONTROL == CONTROL;
    assert SWITCHES == SWITCHES[..4] + SWITCHES[4..] && NUMBERS == NUMBERS[..2] + NUMBERS[2..];
  }

  lemma OtherTables(key: string)
    ensures key in GUIDED_NOT_YET_MAPPED <==> key in LEFTOVERS
    ensures key in FIXED_BASE_STRUCTURAL <==> key in TRUST_FILES
    ensures FixedBaseValue(key) ==
            if key in ENFORCED then Some("yes")
            else if key == "unwanted-reply-threshold" then Some("10000000") else None
  {
    assert GUIDED_NOT_YET_MAPPED == LEFTOVERS && FIXED_BASE_STRUCTURAL == TRUST_FILES;
    assert ENFORCED ==
      ["hide-identity", "hide-version", "harden-glue", "harden-dnssec-stripped", "harden-below-nxdomain"];
  }

  lemma VerdictIs(ip: Netip, blocks: seq<ParsedBlock>, kv: KV)
    ensures DispositionOf(ZoneNames(MappedZones(ip, blocks)), kv) == Verdict(ip, blocks, kv.key, kv.value)
  {
    hide FieldOf, FixedBaseValue, ForwardedHere, MappedZones, ZoneNames, Atoi, ToLower, IsSwitch;
    NamesAreForwarded(ip, blocks, kv.value);
    FieldKeys(kv.key);
    BlockedKeys(kv.key);
    OtherTables(kv.key);
  }

  /** Every directive of a server block that no extractor has taken is reported with its verdict. */
  lemma ReportedVerdict(ip: Netip, current: Settings, custom: string, blocks: seq<ParsedBlock>, p: Place)
    requires ServerPlace(blocks, p) && p !in AllConsumed(ip, blocks)
    ensures var d := blocks[p.block].directives[p.index];
            Finding("server", d.line, d.key, d.value, Verdict(ip, blocks, d.key, d.value))
              in ImportOf(ip, current, custom, blocks).findings
  {
    hide AllConsumed, ZoneNames, MappedZones, ImportOf, DispositionOf, Verdict, AllExpert;
    NoServerDirectiveDropped(ip, current, custom, blocks, p);
    VerdictIs(ip, blocks, KVOf(blocks[p.block].directives[p.index]));
  }

  /** Every other clause that is not taken over is reported once: closed, or offered to the expert. */
  lemma ReportedClause(ip: Netip, current: Settings, custom: string, blocks: seq<ParsedBlock>, b: nat)
    requires b < |blocks| && blocks[b].section != "server" && MappedZone(ip, blocks[b]).None?
    ensures Finding(blocks[b].section, blocks[b].lineStart, blocks[b].section, "",
                    if blocks[b].section in CLOSED_CLAUSES then Blocked else Expert)
              in ImportOf(ip, current, custom, blocks).findings
  {
    hide AllConsumed, ZoneNames, MappedZones, ImportOf, AllFindings, AllExpert, ExtractorFindings, MappedZone,
      BlockExpert;
    var names, consumed, mapped := ZoneNames(MappedZones(ip, blocks)), AllConsumed(ip, blocks), Mapped(ip, blocks);
    ReportIsExact(ip, current, custom, blocks);
    ReportContains(names, consumed, mapped, blocks, |blocks|, b);
    ClosedClauses(blocks[b].section);
    assert ClauseFinding(blocks[b]) in BlockFindings(names, consumed, mapped, b, blocks[b]);
  }

  lemma ClosedClauses(section: string)
    ensures section in CLOSED_CLAUSES <==> IsBlockedSection(section)
  {
    assert CLOSED_CLAUSES[0] == "remote-control" && CLOSED_CLAUSES[1] == "python";
    assert CLOSED_CLAUSES[2] == "dynlib" && CLOSED_CLAUSES[3] == "dnstap";
  }
}
