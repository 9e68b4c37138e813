/**
  `reverseDNSAddresses` (reversedns.go:99-137): the addresses of some small private prefixes, each once and
  in ascending order.
 */
module ReverseDns {
  import opened Text
  import opened Addresses

  const MAX_ADDRESSES := 256

  /** `netip.Addr.IsPrivate`: section 3 of RFC 1918 and section 3 of RFC 4193. */
  const LAN_RANGES: seq<Range> := [V4(10, 8), V4(0xAC1, 12), V4(0xC0A8, 16), V6(0x7E, 7)]

  predicate IsLan(a: Address) { exists i | 0 <= i < |LAN_RANGES| :: Contains(LAN_RANGES[i], a) }

  /** The base address has no host bits. */
  predicate Masked(r: Range) { r.base == Shl(Network(r), HostBits(r)) }

  /** A canonical prefix of at most 256 addresses that starts in private space. */
  predicate Eligible(r: Option<Range>) {
    r.Some? && Masked(r.value) && IsLan(Address(r.value.is6, r.value.base)) && HostBits(r.value) <= 8
  }

  predicate Has(r: Option<Range>, a: Address) { r.Some? && Contains(r.value, a) }

  // ---------- a prefix is an interval ----------

  /** One past the last address of the prefix. */
  function End(r: Range): nat { Shl(Network(r) + 1, HostBits(r)) }

  lemma IsInterval(r: Range, a: Address)
    requires Masked(r)
    ensures Contains(r, a) <==> a.is6 == r.is6 && r.base <= a.value < End(r)
  {
    ShrInterval(a.value, HostBits(r), Network(r));
  }

  ghost function Block(r: Range): set<Address> { set v: nat | r.base <= v < End(r) :: Address(r.is6, v) }

  lemma BlockIs(r: Range, a: Address)
    requires Masked(r)
    ensures a in Block(r) <==> Contains(r, a)
  {
    IsInterval(r, a);
  }

  /** All addresses of the first `n` networks. */
  ghost function Union(parse: RangeParser, networks: seq<string>, n: nat): set<Address>
    requires n <= |networks|
  {
    if n == 0 then {}
    else Union(parse, networks, n - 1) + (match parse(networks[n - 1]) case Some(r) => Block(r) case None => {})
  }

  lemma {:induction false} UnionIs(parse: RangeParser, networks: seq<string>, n: nat, a: Address)
    requires n <= |networks| && forall i | 0 <= i < n :: Eligible(parse(networks[i]))
    ensures a in Union(parse, networks, n) <==> exists i | 0 <= i < n :: Has(parse(networks[i]), a)
  {
    hide Contains, IsLan;
    if n > 0 {
      UnionIs(parse, networks, n - 1, a);
      BlockIs(parse(networks[n - 1]).value, a);
    }
  }

  lemma {:induction false} UnionGrows(parse: RangeParser, networks: seq<string>, n: nat, m: nat)
    requires n <= m <= |networks|
    ensures Union(parse, networks, n) <= Union(parse, networks, m)
  {
    if n < m {
      UnionGrows(parse, networks, n, m - 1);
    }
  }

  /** A prefix this small that starts in a private range lies in it entirely. */
  lemma EntirelyPrivate(r: Range, a: Address)
    requires IsRange(r) && Eligible(Some(r)) && Contains(r, a)
    ensures IsLan(a)
  {
    var i :| 0 <= i < |LAN_RANGES| && Contains(LAN_RANGES[i], Address(r.is6, r.base));
    var p := LAN_RANGES[i];
    ShrAdds(a.value, HostBits(r), HostBits(p) - HostBits(r));
    ShrAdds(r.base, HostBits(r), HostBits(p) - HostBits(r));
    assert Contains(p, a);
  }

  // ---------- order ----------

  /** `netip.Addr.Less`. */
  predicate Less(a: Address, b: Address) { if a.is6 != b.is6 then b.is6 else a.value < b.value }

  ghost predicate Increasing(s: seq<Address>) { forall i, j | 0 <= i < j < |s| :: Less(s[i], s[j]) }

  lemma {:induction false} Smallest(s: set<Address>) returns (least: Address)
    requires s != {}
    ensures least in s && forall a | a in s && a != least :: Less(least, a)
    decreases |s|
  {
    var x :| x in s;
    if s == {x} {
      least := x;
    } else {
      var rest := s - {x};
      assert s == rest + {x};
      least := Smallest(rest);
      if Less(x, least) {
        least := x;
      }
    }
  }

  method Sorted(s: set<Address>) returns (r: seq<Address>)
    ensures Increasing(r) && |r| == |s| && forall a :: a in r <==> a in s
  {
    var left := s;
    r := [];
    while left != {}
      invariant left <= s && |r| + |left| == |s| && Increasing(r)
      invariant forall a :: a in r <==> a in s && a !in left
      invariant forall i, b | 0 <= i < |r| && b in left :: Less(r[i], b)
      decreases |left|
    {
      ghost var first := Smallest(left);
      assert forall a | a in left :: a == first || Less(first, a);
      var least :| least in left && forall a | a in left :: a == least || Less(least, a);
      left := left - {least};
      r := r + [least];
    }
  }

  // ---------- the enumeration ----------

  /** The addresses seen before, with those of the prefix below `v`. */
  ghost function SeenBelow(seen: set<Address>, r: Range, v: nat): set<Address> {
    seen + set x: nat | r.base <= x < v :: Address(r.is6, x)
  }

  lemma SeenNext(seen: set<Address>, r: Range, v: nat)
    requires r.base <= v < End(r)
    ensures SeenBelow(seen, r, v + 1) == SeenBelow(seen, r, v) + {Address(r.is6, v)}
    ensures SeenBelow(seen, r, v + 1) <= SeenBelow(seen, r, End(r))
  {
    hide End;
  }

  lemma SeenEnds(seen: set<Address>, r: Range)
    ensures SeenBelow(seen, r, r.base) == seen && SeenBelow(seen, r, End(r)) == seen + Block(r)
  {
    hide End;
    assert (set x: nat | r.base <= x < r.base :: Address(r.is6, x)) == {};
  }

  /** Adds the addresses of one prefix, unless there are too many in all. */
  method AddBlock(r: Range, seen: set<Address>) returns (all: set<Address>, ok: bool)
    requires Masked(r) && |seen| <= MAX_ADDRESSES
    ensures ok <==> |seen + Block(r)| <= MAX_ADDRESSES
    ensures ok ==> all == seen + Block(r)
  {
    SeenEnds(seen, r);
    NotEmpty(r);
    hide Contains, End, SeenBelow, Block, Masked;
    all := seen;
    var current := Address(r.is6, r.base);
    IsInterval(r, current);
    while Contains(r, current)
      invariant current.is6 == r.is6 && r.base <= current.value <= End(r)
      invariant Contains(r, current) <==> current.value < End(r)
      invariant all == SeenBelow(seen, r, current.value) && |all| <= MAX_ADDRESSES
      decreases End(r) - current.value
    {
      SeenNext(seen, r, current.value);
      all := all + {current};
      if |all| > MAX_ADDRESSES {
        Larger(all, SeenBelow(seen, r, End(r)));
        return all, false;
      }
      current := Address(r.is6, current.value + 1);
      IsInterval(r, current);
    }
    ok := true;
  }

  lemma NotEmpty(r: Range)
    requires Masked(r)
    ensures r.base <= End(r)
  {
    ShrShl(Network(r), HostBits(r));
    ShrInterval(r.base, HostBits(r), Network(r));
  }

  lemma Larger(a: set<Address>, b: set<Address>)
    requires a <= b
    ensures |a| <= |b|
  {
    if a != {} {
      var x :| x in a;
      Larger(a - {x}, b - {x});
    }
  }

  /**
    On success the addresses are strictly increasing, exactly those of the given prefixes, at most 256 and all
    private; it fails only for an empty list, an ineligible prefix, or more addresses than that.
   */
  method ReverseDNSAddresses(parse: RangeParser, networks: seq<string>) returns (r: Option<seq<Address>>)
    requires ParsesWell(parse)
    ensures r.Some? <==>
            (networks != [] && (forall i | 0 <= i < |networks| :: Eligible(parse(networks[i]))) &&
             |Union(parse, networks, |networks|)| <= MAX_ADDRESSES)
    ensures r.Some? ==> Increasing(r.value) && |r.value| <= MAX_ADDRESSES
    ensures r.Some? ==> forall a :: a in r.value <==> exists i | 0 <= i < |networks| :: Has(parse(networks[i]), a)
    ensures r.Some? ==> forall a | a in r.value :: IsLan(a)
  {
    hide IsLan, Contains, Block;
    if |networks| == 0 {
      return None;
    }
    var seen: set<Address> := {};
    for i := 0 to |networks|
      invariant seen == Union(parse, networks, i) && |seen| <= MAX_ADDRESSES
      invariant forall j | 0 <= j < i :: Eligible(parse(networks[j]))
    {
      var prefix := parse(networks[i]);
      if prefix.None? || !Masked(prefix.value) {
        return None;
      }
      if !IsLan(Address(prefix.value.is6, prefix.value.base)) || HostBits(prefix.value) > 8 {
        return None;
      }
      var ok;
      seen, ok := AddBlock(prefix.value, seen);
      if !ok {
        UnionGrows(parse, networks, i + 1, |networks|);
        Larger(Union(parse, networks, i + 1), Union(parse, networks, |networks|));
        return None;
      }
    }
    var sorted := Sorted(seen);
    forall a ensures a in sorted <==> exists i | 0 <= i < |networks| :: Has(parse(networks[i]), a) {
      UnionIs(parse, networks, |networks|, a);
    }
    forall a | a in sorted ensures IsLan(a) {
      var i :| 0 <= i < |networks| && Has(parse(networks[i]), a);
      EntirelyPrivate(parse(networks[i]).value, a);
    }
    return Some(sorted);
  }

  lemma LanNetworks(i: nat)
    requires i < |LAN_RANGES|
    ensures LAN_RANGES[i].is6 == (i == 3) && HostBits(LAN_RANGES[i]) == [24, 20, 16, 121][i]
    ensures Network(LAN_RANGES[i]) == [10, 0xAC1, 0xC0A8, 0x7E][i]
  {
    ShrShl([10, 0xAC1, 0xC0A8, 0x7E][i], HostBits(LAN_RANGES[i]));
  }

  lemma LanRangeIs(i: nat, a: Address)
    requires i < |LAN_RANGES|
    ensures Contains(LAN_RANGES[i], a) <==>
            a.is6 == (i == 3) &&
            [0x0A00_0000, 0xAC10_0000, 0xC0A8_0000, 0xFC00_0000_0000_0000_0000_0000_0000_0000][i] <= a.value <
            [0x0B00_0000, 0xAC20_0000, 0xC0A9_0000, 0xFE00_0000_0000_0000_0000_0000_0000_0000][i]
  {
    hide Shl, Shr, Network, HostBits;
    LanNetworks(i);
    var q := [10, 0xAC1, 0xC0A8, 0x7E][i];
    ShrInterval(a.value, HostBits(LAN_RANGES[i]), q);
    Shifts(q);
    Shifts(q + 1);
  }

  /** The private addresses in numbers: 10/8, 172.16/12 and 192.168/16, and fc00::/7. */
  lemma LanIs(a: Address)
    ensures IsLan(a) <==>
            if a.is6 then 0xFC00_0000_0000_0000_0000_0000_0000_0000 <= a.value <
                          0xFE00_0000_0000_0000_0000_0000_0000_0000
            else 0x0A00_0000 <= a.value < 0x0B00_0000 || 0xAC10_0000 <= a.value < 0xAC20_0000 ||
                 0xC0A8_0000 <= a.value < 0xC0A9_0000
  {
    hide Contains;
    LanRangeIs(0, a);
    LanRangeIs(1, a);
    LanRangeIs(2, a);
    LanRangeIs(3, a);
    assert IsLan(a) <==> Contains(LAN_RANGES[0], a) || Contains(LAN_RANGES[1], a) || Contains(LAN_RANGES[2], a) ||
                         Contains(LAN_RANGES[3], a);
  }
}
