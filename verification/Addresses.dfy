/**
  IP addresses as numbers: a family and a value, and prefixes that keep their base address unmasked, as
  `netip.Prefix` does.
 */
module Addresses {
  import opened Text

  /** `x` without its last `n` bits. */
  function Shr(x: nat, n: nat): nat { if n == 0 then x else Shr(x / 2, n - 1) }

  /** `x` followed by `n` zero bits. */
  function Shl(x: nat, n: nat): nat
    decreases n
  {
    if n == 0 then x else Shl(2 * x, n - 1)
  }

  datatype Address = Address(is6: bool, value: nat)

  datatype Range = Range(is6: bool, base: nat, bits: nat)

  function Width(is6: bool): nat { if is6 then 128 else 32 }

  /** The number fits the family's width. */
  predicate IsAddress(a: Address) { Shr(a.value, Width(a.is6)) == 0 }

  predicate IsRange(r: Range) { r.bits <= Width(r.is6) && Shr(r.base, Width(r.is6)) == 0 }

  /** Number of bits that vary within the range. */
  function HostBits(r: Range): nat { if r.bits <= Width(r.is6) then Width(r.is6) - r.bits else 0 }

  function Network(r: Range): nat { Shr(r.base, HostBits(r)) }

  /** `netip.Prefix.Contains`: same family and the same leading bits. */
  predicate Contains(r: Range, a: Address) { a.is6 == r.is6 && Shr(a.value, HostBits(r)) == Network(r) }

  function V4(network: nat, bits: nat): Range
    requires bits <= 32
  {
    Range(false, Shl(network, 32 - bits), bits)
  }

  function V6(network: nat, bits: nat): Range
    requires bits <= 128
  {
    Range(true, Shl(network, 128 - bits), bits)
  }

  /** The library's parser for a prefix or a single address, which is not part of this model. */
  type RangeParser = string -> Option<Range>

  /** The parser only returns ranges that fit their family. */
  ghost predicate ParsesWell(parse: RangeParser) {
    forall text: string | parse(text).Some? :: IsRange(parse(text).value)
  }

  // ---------- shifting ----------

  lemma {:induction false} ShrAdds(x: nat, m: nat, n: nat)
    ensures Shr(x, m + n) == Shr(Shr(x, m), n)
  {
    if m > 0 {
      ShrAdds(x / 2, m - 1, n);
    }
  }

  lemma {:induction false} ShlAdds(x: nat, m: nat, n: nat)
    ensures Shl(x, m + n) == Shl(Shl(x, m), n)
    decreases m
  {
    if m > 0 {
      ShlAdds(2 * x, m - 1, n);
    }
  }

  lemma {:induction false} ShrShl(x: nat, n: nat)
    ensures Shr(Shl(x, n), n) == x
    decreases n
  {
    if n > 0 {
      ShrShl(2 * x, n - 1);
      ShrAdds(Shl(2 * x, n - 1), n - 1, 1);
      assert Shr(2 * x, 1) == Shr(2 * x / 2, 0);
    }
  }

  lemma ShrOfShl(x: nat, n: nat, m: nat)
    ensures Shr(Shl(x, n), m) == if m <= n then Shl(x, n - m) else Shr(x, m - n)
  {
    if m <= n {
      ShlAdds(x, n - m, m);
      ShrShl(Shl(x, n - m), m);
    } else {
      ShrAdds(Shl(x, n), n, m - n);
      ShrShl(x, n);
    }
  }

  lemma {:induction false} ShrNothing(n: nat)
    ensures Shr(0, n) == 0
  {
    if n > 0 {
      ShrNothing(n - 1);
    }
  }

  /** Shifting in a zero bit makes the number even, and only zero shifts to zero. */
  lemma LastBit(x: nat, n: nat)
    requires n > 0
    ensures Shl(x, n) % 2 == 0 && Shl(x, n) / 2 == Shl(x, n - 1)
    ensures Shr(x, n) == Shr(x / 2, n - 1)
  {
    ShlAdds(x, n - 1, 1);
    assert Shl(Shl(x, n - 1), 1) == Shl(2 * Shl(x, n - 1), 0);
  }

  lemma {:induction false} ShrInterval(x: nat, n: nat, q: nat)
    ensures Shr(x, n) == q <==> Shl(q, n) <= x < Shl(q + 1, n)
    decreases n
  {
    if n > 0 {
      ShrInterval(x / 2, n - 1, q);
      LastBit(q, n);
      LastBit(q + 1, n);
    }
  }

  /** Some shifts as products. */
  lemma Shifts(x: nat)
    ensures Shl(x, 0) == x && Shl(x, 8) == 0x100 * x && Shl(x, 16) == 0x1_0000 * x
    ensures Shl(x, 20) == 0x10_0000 * x && Shl(x, 24) == 0x100_0000 * x
    ensures Shl(x, 118) == 0x40_0000_0000_0000_0000_0000_0000_0000 * x
    ensures Shl(x, 121) == 0x200_0000_0000_0000_0000_0000_0000_0000 * x
  {
    hide Shl;
    Doubled(x);
    Doubled(0x10 * x);
    ShlAdds(x, 4, 4);
    Doubled(0x100 * x);
    ShlAdds(x, 8, 4);
    Doubled(0x1000 * x);
    ShlAdds(x, 12, 4);
    Doubled(0x1_0000 * x);
    ShlAdds(x, 16, 4);
    Doubled(0x10_0000 * x);
    ShlAdds(x, 20, 4);
    LargeShifts(x);
  }

  lemma Doubled(x: nat)
    ensures Shl(x, 0) == x && Shl(x, 1) == 2 * x && Shl(x, 2) == 4 * x && Shl(x, 3) == 8 * x && Shl(x, 4) == 16 * x
  {
    assert Shl(x, 1) == Shl(2 * x, 0);
    assert Shl(x, 2) == Shl(2 * x, 1) == Shl(4 * x, 0);
    assert Shl(x, 3) == Shl(2 * x, 2) == Shl(4 * x, 1) == Shl(8 * x, 0);
    assert Shl(x, 4) == Shl(2 * x, 3) == Shl(4 * x, 2) == Shl(8 * x, 1) == Shl(16 * x, 0);
  }

  lemma Shift24(x: nat)
    ensures Shl(x, 24) == 0x100_0000 * x
  {
    hide Shl;
    Doubled(x);
    Doubled(0x10 * x);
    ShlAdds(x, 4, 4);
    Doubled(0x100 * x);
    ShlAdds(x, 8, 4);
    Doubled(0x1000 * x);
    ShlAdds(x, 12, 4);
    Doubled(0x1_0000 * x);
    ShlAdds(x, 16, 4);
    Doubled(0x10_0000 * x);
    ShlAdds(x, 20, 4);
  }

  lemma LargeShifts(x: nat)
    ensures Shl(x, 118) == 0x40_0000_0000_0000_0000_0000_0000_0000 * x
    ensures Shl(x, 121) == 0x200_0000_0000_0000_0000_0000_0000_0000 * x
  {
    hide Shl;
    Shift24(x);
    Shift24(0x100_0000 * x);
    ShlAdds(x, 24, 24);
    var y := 0x1_0000_0000_0000 * x;
    Shift24(y);
    Shift24(0x100_0000 * y);
    ShlAdds(y, 24, 24);
    ShlAdds(x, 48, 48);
    var z := 0x1_0000_0000_0000 * y;
    Shift22(z);
    ShlAdds(x, 96, 22);
    ShlAdds(x, 118, 3);
    Doubled(0x40_0000 * z);
  }

  lemma Shift22(x: nat)
    ensures Shl(x, 22) == 0x40_0000 * x
  {
    hide Shl;
    Doubled(x);
    Doubled(0x10 * x);
    ShlAdds(x, 4, 4);
    Doubled(0x100 * x);
    ShlAdds(x, 8, 4);
    Doubled(0x1000 * x);
    ShlAdds(x, 12, 4);
    Doubled(0x1_0000 * x);
    ShlAdds(x, 16, 4);
    Doubled(0x10_0000 * x);
    ShlAdds(x, 20, 2);
  }

  /** The block after a smaller one that starts a larger one is still in the larger one. */
  lemma NextBlock(q: nat, n: nat)
    requires n > 0
    ensures Shr(Shl(q, n) + 1, n) == q
  {
    LastBit(q, n);
    ShrShl(q, n - 1);
    assert (Shl(q, n) + 1) / 2 == Shl(q, n - 1);
  }

  /** The first address of a range, and that it is one. */
  lemma FirstAddress(r: Range) returns (a: Address)
    requires IsRange(r)
    ensures a == Address(r.is6, Shl(Network(r), HostBits(r))) && IsAddress(a) && Contains(r, a)
  {
    a := Address(r.is6, Shl(Network(r), HostBits(r)));
    ShrShl(Network(r), HostBits(r));
    ShrAdds(a.value, HostBits(r), r.bits);
    ShrAdds(r.base, HostBits(r), r.bits);
  }
}
