/** Small facts about sequences that several modules share. */
module Seqs {

  /** The concatenation of `f(x)` for every `x` in `xs`, in order. */
  function Flat<T, U>(xs: seq<T>, f: T -> seq<U>): seq<U> {
    if xs == [] then [] else Flat(xs[..|xs| - 1], f) + f(xs[|xs| - 1])
  }

  lemma FlatSnoc<T, U>(xs: seq<T>, i: nat, f: T -> seq<U>)
    requires i < |xs|
    ensures Flat(xs[..i + 1], f) == Flat(xs[..i], f) + f(xs[i])
  {
    assert xs[..i + 1][..i] == xs[..i];
  }

  lemma {:induction false} FlatConcat<T, U>(xs: seq<T>, ys: seq<T>, f: T -> seq<U>)
    ensures Flat(xs + ys, f) == Flat(xs, f) + Flat(ys, f)
  {
    if ys == [] {
      assert xs + ys == xs;
    } else {
      var n := |ys| - 1;
      var zs := xs + ys;
      FlatConcat(xs, ys[..n], f);
      assert zs[..|zs| - 1] == xs + ys[..n] && zs[|zs| - 1] == ys[n];
      Associative(Flat(xs, f), Flat(ys[..n], f), f(ys[n]));
    }
  }

  lemma FlatOne<T, U>(xs: seq<T>, x: T, f: T -> seq<U>)
    ensures Flat(xs + [x], f) == Flat(xs, f) + f(x)
  {
    assert (xs + [x])[..|xs|] == xs;
  }

  lemma FlatNothing<T, U>(f: T -> seq<U>)
    ensures Flat([], f) == []
  {
  }

  lemma {:induction false} FlatMember<T, U>(xs: seq<T>, f: T -> seq<U>, k: nat)
    requires k < |xs|
    ensures forall u | u in f(xs[k]) :: u in Flat(xs, f)
  {
    if k < |xs| - 1 {
      FlatMember(xs[..|xs| - 1], f, k);
    }
  }

  lemma FlatHead<T, U>(xs: seq<T>, f: T -> seq<U>)
    requires xs != []
    ensures Flat(xs, f) == f(xs[0]) + Flat(xs[1..], f)
  {
    hide Flat;
    FlatConcat([xs[0]], xs[1..], f);
    assert xs == [xs[0]] + xs[1..];
    FlatSingleton(xs[0], f);
  }

  lemma FlatSingleton<T, U>(x: T, f: T -> seq<U>)
    ensures Flat([x], f) == f(x)
  {
    assert [x][..0] == [];
    assert Flat([x], f) == Flat([], f) + f(x);
  }

  lemma FlatEnds<T, U>(xs: seq<T>, f: T -> seq<U>)
    ensures Flat(xs, f) == if xs == [] then [] else Flat(xs[..|xs| - 1], f) + f(xs[|xs| - 1])
  {
  }

  lemma {:induction false} FlatOrigin<T, U>(xs: seq<T>, f: T -> seq<U>, i: nat) returns (j: nat, m: nat)
    requires i < |Flat(xs, f)|
    ensures j < |xs| && m < |f(xs[j])| && Flat(xs, f)[i] == f(xs[j])[m]
  {
    var n := |xs| - 1;
    var before := Flat(xs[..n], f);
    if i < |before| {
      j, m := FlatOrigin(xs[..n], f, i);
    } else {
      j, m := n, i - |before|;
    }
  }

  lemma FlatPrefix<T, U>(xs: seq<T>, i: nat, f: T -> seq<U>)
    requires i <= |xs|
    ensures Flat(xs[..i], f) <= Flat(xs, f)
  {
    hide Flat;
    FlatConcat(xs[..i], xs[i..], f);
    assert xs == xs[..i] + xs[i..];
  }

  lemma Associative<U>(a: seq<U>, b: seq<U>, c: seq<U>)
    ensures a + b + c == a + (b + c)
  {
  }

  ghost predicate Distinct<T>(xs: seq<T>) {
    forall i, j | 0 <= i < j < |xs| :: xs[i] != xs[j]
  }

  function Map<T, U>(xs: seq<T>, f: T -> U): (ys: seq<U>)
    ensures |ys| == |xs|
    ensures forall i | 0 <= i < |xs| :: ys[i] == f(xs[i])
  {
    seq(|xs|, i requires 0 <= i < |xs| => f(xs[i]))
  }
}
