/**
  The access-control guard of the expert editor (custom.go:244-295): an allow rule is refused unless its
  range lies in private address space.
 */
module UnboundAccessControl {
  import opened Text
  import opened Addresses

  /** 10/8, 172.16/12, 192.168/16, 127/8, 169.254/16; ::1/128, fc00::/7, fe80::/10. */
  const PRIVATE_RANGES: seq<Range> :=
    [V4(10, 8), V4(0xAC1, 12), V4(0xC0A8, 16), V4(127, 8), V4(0xA9FE, 16), V6(1, 128), V6(0x7E, 7), V6(0x3FA, 10)]

  /** Some listed range holds the address. */
  ghost predicate Private(a: Address) {
    exists i | 0 <= i < |PRIVATE_RANGES| :: Contains(PRIVATE_RANGES[i], a)
  }

  /** The range has an address outside private space. */
  ghost predicate ReachesOutside(r: Range) { exists a: Address :: IsAddress(a) && Contains(r, a) && !Private(a) }

  predicate Within(r: Range, p: Range) { r.bits >= p.bits && Contains(p, Address(r.is6, r.base)) }

  // ---------- the check decides coverage ----------

  /** Every address of a range within a listed range is in that listed range. */
  lemma WithinCovers(r: Range, p: Range, a: Address)
    requires IsRange(r) && IsRange(p) && Within(r, p) && Contains(r, a)
    ensures Contains(p, a)
  {
    ShrAdds(a.value, HostBits(r), r.bits - p.bits);
    ShrAdds(r.base, HostBits(r), r.bits - p.bits);
  }

  /** A range not within `p` that starts in `p` also holds the first address after `p`. */
  lemma AfterBlock(r: Range, p: Range) returns (a: Address)
    requires IsRange(r) && IsRange(p) && !Within(r, p) && Contains(p, Address(r.is6, Shl(Network(r), HostBits(r))))
    ensures a == Address(p.is6, Shl(Network(p) + 1, HostBits(p))) && IsAddress(a) && Contains(r, a)
  {
    a := Address(p.is6, Shl(Network(p) + 1, HostBits(p)));
    var first := Shl(Network(r), HostBits(r));
    if r.bits >= p.bits {
      var d := r.bits - p.bits;
      ShrOfShl(Network(r), HostBits(r), HostBits(p));
      ShrAdds(r.base, HostBits(r), d);
      assert false;
    }
    var d := p.bits - r.bits;
    ShrOfShl(Network(r), HostBits(r), HostBits(p));
    assert Network(p) == Shl(Network(r), d);
    NextBlock(Network(r), d);
    ShrAdds(a.value, HostBits(p), d);
    ShrShl(Network(p) + 1, HostBits(p));
    assert Shr(a.value, HostBits(r)) == Network(r);
    ShrAdds(a.value, HostBits(r), r.bits);
    ShrAdds(r.base, HostBits(r), r.bits);
  }

  lemma SmallShl(x: nat)
    ensures Shl(x, 0) == x && Shl(x, 3) == 8 * x && Shl(x, 4) == 16 * x && Shl(x, 8) == 256 * x
  {
    assert Shl(x, 4) == Shl(2 * x, 3) == Shl(4 * x, 2) == Shl(8 * x, 1) == Shl(16 * x, 0);
    assert Shl(x, 3) == Shl(2 * x, 2) == Shl(4 * x, 1) == Shl(8 * x, 0);
    assert Shl(16 * x, 4) == Shl(32 * x, 3) == Shl(64 * x, 2) == Shl(128 * x, 1) == Shl(256 * x, 0);
    ShlAdds(x, 4, 4);
  }

  lemma Shr2(x: nat)
    ensures Shr(x, 2) == x / 4
  {
    assert Shr(x, 2) == Shr(x / 2, 1) == Shr(x / 2 / 2, 0);
  }

  lemma SmallShr(x: nat)
    ensures Shr(x, 3) == x / 8 && Shr(x, 4) == x / 16 && Shr(x, 8) == x / 256
  {
    hide Shr;
    Shr2(x);
    ShrOne(x / 4);
    Shr2(x / 4);
    ShrAdds(x, 2, 1);
    ShrAdds(x, 2, 2);
    Shr2(x / 16);
    Shr2(x / 64);
    ShrAdds(x, 4, 2);
    ShrAdds(x, 6, 2);
  }

  lemma ShrOne(x: nat)
    ensures Shr(x, 1) == x / 2
  {
    assert Shr(x, 1) == Shr(x / 2, 0);
  }

  lemma ListedNetworks(i: nat)
    requires i < |PRIVATE_RANGES|
    ensures IsRange(PRIVATE_RANGES[i])
    ensures Network(PRIVATE_RANGES[i]) == [10, 0xAC1, 0xC0A8, 127, 0xA9FE, 1, 0x7E, 0x3FA][i]
  {
    var network := [10, 0xAC1, 0xC0A8, 127, 0xA9FE, 1, 0x7E, 0x3FA][i];
    var p := PRIVATE_RANGES[i];
    ShrShl(network, HostBits(p));
    ShrAdds(p.base, HostBits(p), p.bits);
    FitsIn(network, p.bits);
  }

  /** A number below 2^k has no bits above the k-th. */
  lemma FitsIn(x: nat, n: nat)
    requires (n >= 7 && x < 128) || (n >= 8 && x < 256) || (n >= 10 && x < 1024) || (n >= 12 && x < 4096) ||
             (n >= 16 && x < 0x1_0000)
    ensures Shr(x, n) == 0
  {
    hide Shr;
    var k := if x < 128 then 7 else if x < 256 then 8 else if x < 1024 then 10 else if x < 4096 then 12 else 16;
    ShrAdds(x, k, n - k);
    ShrNothing(n - k);
    SmallShr(x);
    SmallShr(x / 16);
    ShrAdds(x, 4, 3);
    SmallShr(x / 256);
    ShrAdds(x, 8, 8);
    ShrAdds(x, 8, 4);
    ShrAdds(x, 8, 2);
    Shr2(x / 256);
  }

  /** No listed range starts where another ends. */
  lemma NextIsOutside(i: nat, j: nat)
    requires i < |PRIVATE_RANGES| && j < |PRIVATE_RANGES|
    ensures var p := PRIVATE_RANGES[i];
            !Contains(PRIVATE_RANGES[j], Address(p.is6, Shl(Network(p) + 1, HostBits(p))))
  {
    hide Shr, Shl, Network;
    ListedNetworks(i);
    ListedNetworks(j);
    ListedShape(i);
    ListedShape(j);
    var p, o := PRIVATE_RANGES[i], PRIVATE_RANGES[j];
    var next := Network(p) + 1;
    ShrOfShl(next, HostBits(p), HostBits(o));
    if p.is6 == o.is6 {
      hide HostBits;
      SmallShl(next);
      SmallShr(next);
      if HostBits(p) == 0 && HostBits(o) > 0 {
        FitsIn(next, HostBits(o));
      } else if HostBits(p) > 0 && HostBits(o) == 0 {
        LastBit(next, HostBits(p));
      }
    }
  }

  lemma ListedShape(i: nat)
    requires i < |PRIVATE_RANGES|
    ensures PRIVATE_RANGES[i].is6 == (i >= 5)
    ensures HostBits(PRIVATE_RANGES[i]) == [24, 20, 16, 24, 16, 0, 121, 118][i]
  {
    hide Shl, Shr;
  }

  /** The check of the source, on a parsed range: exactly when no address reaches outside private space. */
  lemma RangeCheckExact(r: Range)
    requires IsRange(r)
    ensures (exists i | 0 <= i < |PRIVATE_RANGES| :: Within(r, PRIVATE_RANGES[i])) <==> !ReachesOutside(r)
  {
    hide Within, Contains, Network, HostBits, Width, IsRange, IsAddress;
    if i :| 0 <= i < |PRIVATE_RANGES| && Within(r, PRIVATE_RANGES[i]) {
      forall a: Address | IsAddress(a) && Contains(r, a) ensures Private(a) {
        ListedNetworks(i);
        WithinCovers(r, PRIVATE_RANGES[i], a);
      }
    } else {
      var a := FirstAddress(r);
      if Private(a) {
        var i :| 0 <= i < |PRIVATE_RANGES| && Contains(PRIVATE_RANGES[i], a);
        ListedNetworks(i);
        a := AfterBlock(r, PRIVATE_RANGES[i]);
        forall j | 0 <= j < |PRIVATE_RANGES| ensures !Contains(PRIVATE_RANGES[j], a) {
          NextIsOutside(i, j);
        }
      }
      assert IsAddress(a) && Contains(r, a) && !Private(a);
    }
  }

  /** One listed range in numbers. */
  lemma ListedIs(i: nat, a: Address)
    requires i < |PRIVATE_RANGES|
    ensures Contains(PRIVATE_RANGES[i], a) <==>
            a.is6 == (i >= 5) &&
            [0x0A00_0000, 0xAC10_0000, 0xC0A8_0000, 0x7F00_0000, 0xA9FE_0000, 1,
             0xFC00_0000_0000_0000_0000_0000_0000_0000, 0xFE80_0000_0000_0000_0000_0000_0000_0000][i] <= a.value <
            [0x0B00_0000, 0xAC20_0000, 0xC0A9_0000, 0x8000_0000, 0xA9FF_0000, 2,
             0xFE00_0000_0000_0000_0000_0000_0000_0000, 0xFEC0_0000_0000_0000_0000_0000_0000_0000][i]
  {
    hide Shl, Shr, Network, HostBits, IsRange;
    ListedNetworks(i);
    ListedShape(i);
    var q := [10, 0xAC1, 0xC0A8, 127, 0xA9FE, 1, 0x7E, 0x3FA][i];
    ShrInterval(a.value, HostBits(PRIVATE_RANGES[i]), q);
    Shifts(q);
    Shifts(q + 1);
  }

  lemma OneOfEight(a: Address)
    ensures Private(a) <==>
            Contains(PRIVATE_RANGES[0], a) || Contains(PRIVATE_RANGES[1], a) || Contains(PRIVATE_RANGES[2], a) ||
            Contains(PRIVATE_RANGES[3], a) || Contains(PRIVATE_RANGES[4], a) || Contains(PRIVATE_RANGES[5], a) ||
            Contains(PRIVATE_RANGES[6], a) || Contains(PRIVATE_RANGES[7], a)
  {
    hide Contains;
  }

  /** The listed ranges in numbers: three private ones, loopback and link-local, in both families. */
  lemma PrivateIs(a: Address)
    ensures Private(a) <==>
            if a.is6 then
              a.value == 1 ||
              0xFC00_0000_0000_0000_0000_0000_0000_0000 <= a.value < 0xFE00_0000_0000_0000_0000_0000_0000_0000 ||
              0xFE80_0000_0000_0000_0000_0000_0000_0000 <= a.value < 0xFEC0_0000_0000_0000_0000_0000_0000_0000
            else
              0x0A00_0000 <= a.value < 0x0B00_0000 || 0xAC10_0000 <= a.value < 0xAC20_0000 ||
              0xC0A8_0000 <= a.value < 0xC0A9_0000 || 0x7F00_0000 <= a.value < 0x8000_0000 ||
              0xA9FE_0000 <= a.value < 0xA9FF_0000
  {
    hide Contains, Private;
    OneOfEight(a);
    ListedIs(0, a);
    ListedIs(1, a);
    ListedIs(2, a);
    ListedIs(3, a);
    ListedIs(4, a);
    ListedIs(5, a);
    ListedIs(6, a);
    ListedIs(7, a);
  }

  // ---------- the directive ----------

  predicate IsAllow(fields: seq<string>) { |fields| >= 2 && HasPrefix(ToLower(fields[1]), "allow") }

  /** An allow rule whose range does not parse or reaches outside private space. */
  ghost predicate GrantsNonPrivate(parse: RangeParser, value: string) {
    IsAllow(Fields(value)) &&
    (parse(Fields(value)[0]).Some? ==> ReachesOutside(parse(Fields(value)[0]).value))
  }

  method AccessControlGrantsNonPrivateAccess(parse: RangeParser, value: string) returns (grants: bool)
    requires ParsesWell(parse)
    ensures grants <==> GrantsNonPrivate(parse, value)
  {
    hide Within, Fields, ReachesOutside, HasPrefix, ToLower;
    var fields := Fields(value);
    if |fields| < 2 || !HasPrefix(ToLower(fields[1]), "allow") {
      return false;
    }
    var network := parse(fields[0]);
    if network.None? {
      return true;
    }
    RangeCheckExact(network.value);
    for i := 0 to |PRIVATE_RANGES|
      invariant forall j | 0 <= j < i :: !Within(network.value, PRIVATE_RANGES[j])
    {
      if Within(network.value, PRIVATE_RANGES[i]) {
        return false;
      }
    }
    return true;
  }
}
