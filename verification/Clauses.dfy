/**
  What the importer keeps of a forward-zone clause that it maps (import.go:256-302), line by line. A clause may
  repeat `name` and `forward-first`; the extractor then keeps the last one without a finding.
 */
module UnboundClauses {
  import opened Text
  import opened UnboundSettings
  import opened UnboundParse
  import opened UnboundExtract

  /** The last value of a key. */
  function LastValue(kvs: seq<KV>, key: string): Option<string> {
    if kvs == [] then None
    else if kvs[|kvs| - 1].key == key then Some(kvs[|kvs| - 1].value)
    else LastValue(kvs[..|kvs| - 1], key)
  }

  /** All values of a key, in order. */
  function Values(kvs: seq<KV>, key: string): seq<string> {
    if kvs == [] then []
    else
      var last := kvs[|kvs| - 1];
      Values(kvs[..|kvs| - 1], key) + (if last.key == key then [last.value] else [])
  }

  ghost predicate KnownKeys(kvs: seq<KV>) {
    forall i | 0 <= i < |kvs| :: kvs[i].key == "name" || kvs[i].key == "forward-addr" || kvs[i].key == "forward-first"
  }

  /** The draft takes every server, in order, and of the other lines the last of each key. */
  lemma {:induction false} DraftTakes(kvs: seq<KV>)
    ensures var d := DraftOf(kvs);
            d.zone.servers == Values(kvs, "forward-addr") &&
            d.zone.name == (match LastValue(kvs, "name") case Some(v) => v case None => "") &&
            d.zone.forwardFirst == (LastValue(kvs, "forward-first").Some? &&
                                    ToLower(LastValue(kvs, "forward-first").value) == "yes") &&
            (d.clean <==> KnownKeys(kvs))
  {
    hide ToLower;
    if kvs != [] {
      var n := |kvs| - 1;
      DraftTakes(kvs[..n]);
      KnownKeysSnoc(kvs);
    }
  }

  lemma KnownKeysSnoc(kvs: seq<KV>)
    requires kvs != []
    ensures var key := kvs[|kvs| - 1].key;
            KnownKeys(kvs) <==>
              KnownKeys(kvs[..|kvs| - 1]) && (key == "name" || key == "forward-addr" || key == "forward-first")
  {
    var n := |kvs| - 1;
    if KnownKeys(kvs[..n]) {
      forall i | 0 <= i < n ensures kvs[i] == kvs[..n][i] {
      }
    }
  }

  lemma {:induction false} LastValueIs(kvs: seq<KV>, key: string)
    ensures LastValue(kvs, key).Some? ==>
              exists i | 0 <= i < |kvs| :: kvs[i].key == key && kvs[i].value == LastValue(kvs, key).value
    ensures LastValue(kvs, key).None? ==> forall i | 0 <= i < |kvs| :: kvs[i].key != key
  {
    if kvs != [] {
      var n := |kvs| - 1;
      LastValueIs(kvs[..n], key);
      if kvs[n].key != key && LastValue(kvs[..n], key).Some? {
        var i :| 0 <= i < n && kvs[..n][i].key == key && kvs[..n][i].value == LastValue(kvs[..n], key).value;
        assert kvs[i].key == key;
      }
    }
  }

  lemma {:induction false} ValuesHold(kvs: seq<KV>, key: string, i: nat)
    requires i < |kvs| && kvs[i].key == key
    ensures kvs[i].value in Values(kvs, key)
  {
    var n := |kvs| - 1;
    if i < n {
      ValuesHold(kvs[..n], key, i);
    }
  }

  // ---------- loss ----------

  /** The zone says what the line says. */
  predicate States(z: ForwardZone, kv: KV) {
    match kv.key
    case "name" => kv.value == z.name
    case "forward-addr" => kv.value in z.servers
    case "forward-first" => ToLower(kv.value) == if z.forwardFirst then "yes" else "no"
    case _ => false
  }

  ghost predicate StatesAll(z: ForwardZone, kvs: seq<KV>) { forall i | 0 <= i < |kvs| :: States(z, kvs[i]) }

  ghost predicate AllNamed(kvs: seq<KV>, name: string) {
    forall i | 0 <= i < |kvs| && kvs[i].key == "name" :: kvs[i].value == name
  }

  ghost predicate OneName(kvs: seq<KV>) { exists name :: AllNamed(kvs, name) }

  ghost predicate FirstIs(kvs: seq<KV>, value: string) {
    forall i | 0 <= i < |kvs| && kvs[i].key == "forward-first" :: ToLower(kvs[i].value) == value
  }

  /**
    A clause is mapped without loss exactly when its `name` lines agree, and its `forward-first` lines all say yes
    or all say no; otherwise the extractor drops a line without a finding.
   */
  lemma MappedWithoutLoss(ip: Netip, block: ParsedBlock, z: ForwardZone)
    requires MappedZone(ip, block) == Some(z)
    ensures var kvs := KVs(block.directives);
            StatesAll(z, kvs) <==> OneName(kvs) && (FirstIs(kvs, "yes") || FirstIs(kvs, "no"))
  {
    hide ValidZoneName, ValidServer, ToLower, DraftOf, Values, LastValue;
    var kvs := KVs(block.directives);
    DraftTakes(kvs);
    LastValueIs(kvs, "name");
    LastValueIs(kvs, "forward-first");
    if StatesAll(z, kvs) {
      StatedLines(z, kvs);
    }
    if OneName(kvs) && (FirstIs(kvs, "yes") || FirstIs(kvs, "no")) {
      var name :| AllNamed(kvs, name);
      forall i | 0 <= i < |kvs| ensures States(z, kvs[i]) {
        if kvs[i].key == "forward-addr" {
          ValuesHold(kvs, "forward-addr", i);
        }
      }
    }
  }

  lemma StatedLines(z: ForwardZone, kvs: seq<KV>)
    requires StatesAll(z, kvs)
    ensures AllNamed(kvs, z.name) && FirstIs(kvs, if z.forwardFirst then "yes" else "no")
  {
    hide ToLower;
    forall i | 0 <= i < |kvs| ensures States(z, kvs[i]) {
    }
  }

  // ---------- a clause with two names ----------

  const TWO_NAMES := ParsedBlock("forward-zone", 1,
    [ParsedDirective("name", "a.", 2, "name: a."), ParsedDirective("name", "b.", 3, "name: b."),
     ParsedDirective("forward-addr", "9.9.9.9", 4, "forward-addr: 9.9.9.9")])

  /** The clause is mapped under its second name, and the first is gone. */
  lemma FirstNameIsLost(ip: Netip)
    requires ip.canonical("9.9.9.9") && !ip.reservedForward("9.9.9.9")
    ensures MappedZone(ip, TWO_NAMES) == Some(ForwardZone("b.", ["9.9.9.9"], false, false, false))
    ensures !States(MappedZone(ip, TWO_NAMES).value, KVs(TWO_NAMES.directives)[0])
  {
    hide ValidZoneName, DraftOf, States;
    TwoNamesDraft();
    ShortZone();
    FirstNotStated(MappedZone(ip, TWO_NAMES).value);
  }

  lemma TwoNamesDraft()
    ensures DraftOf(KVs(TWO_NAMES.directives)) == Draft(ForwardZone("b.", ["9.9.9.9"], false, false, false), true)
  {
    var one, two, three := KV("name", "a."), KV("name", "b."), KV("forward-addr", "9.9.9.9");
    assert KVs(TWO_NAMES.directives) == [] + [one] + [two] + [three];
    DraftSnoc([], one);
    DraftSnoc([] + [one], two);
    DraftSnoc([] + [one] + [two], three);
  }

  lemma DraftSnoc(kvs: seq<KV>, kv: KV)
    ensures DraftOf(kvs + [kv]) == DraftStep(DraftOf(kvs), kv)
  {
    assert (kvs + [kv])[..|kvs|] == kvs;
  }

  lemma FirstNotStated(z: ForwardZone)
    requires z.name == "b."
    ensures !States(z, KVs(TWO_NAMES.directives)[0])
  {
    assert KVs(TWO_NAMES.directives)[0] == KV("name", "a.") && "a."[0] != "b."[0];
  }

  lemma ShortZone()
    ensures ValidZoneName("b.")
  {
    var name := "b.";
    assert TrimSuffix(name, ".") == "b";
    FirstIndexIs("b", '.', 1);
    assert SplitOn("b", '.') == ["b"];
    TrimSpaceTrims(name);
  }
}
