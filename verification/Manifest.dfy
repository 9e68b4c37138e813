/**
  Two ways to check a recorded file list against the files found: sorted and compared in step
  (archive.go:219-254), and counted and looked up by path (backups.go:255-291).
 */
module Manifest {
  import opened Text

  datatype FileSum = FileSum(path: string, size: int, digest: string)

  // ---------- the order of paths ----------

  /** Byte order of strings. */
  predicate Less(a: string, b: string) {
    if b == [] then false
    else if a == [] then true
    else if a[0] != b[0] then a[0] < b[0]
    else Less(a[1..], b[1..])
  }

  lemma {:induction false} LessTotal(a: string, b: string)
    ensures !Less(a, a) && (Less(a, b) ==> !Less(b, a)) && (a == b || Less(a, b) || Less(b, a))
  {
    if a != [] {
      LessTotal(a[1..], a[1..]);
    }
    if a != [] && b != [] && a[0] == b[0] {
      LessTotal(a[1..], b[1..]);
      assert a == [a[0]] + a[1..] && b == [b[0]] + b[1..];
    }
  }

  lemma {:induction false} LessTransitive(a: string, b: string, c: string)
    requires !Less(b, a) && !Less(c, b)
    ensures !Less(c, a)
  {
    if a != [] && b != [] && c != [] && a[0] == b[0] == c[0] {
      LessTransitive(a[1..], b[1..], c[1..]);
    }
  }

  // ---------- sorting ----------

  predicate Ascending(s: seq<FileSum>) { forall i, j | 0 <= i < j < |s| :: !Less(s[j].path, s[i].path) }

  function Insert(s: seq<FileSum>, f: FileSum): seq<FileSum> {
    if s == [] then [f] else if Less(f.path, s[0].path) then [f] + s else [s[0]] + Insert(s[1..], f)
  }

  /** The list by ascending path. */
  function Sorted(s: seq<FileSum>): seq<FileSum> {
    if s == [] then [] else Insert(Sorted(s[..|s| - 1]), s[|s| - 1])
  }

  lemma {:induction false} InsertKeepsAll(s: seq<FileSum>, f: FileSum)
    ensures multiset(Insert(s, f)) == multiset(s) + multiset{f}
  {
    hide Less;
    if s != [] {
      assert s == [s[0]] + s[1..];
      if Less(f.path, s[0].path) {
        assert Insert(s, f) == [f] + s;
      } else {
        InsertKeepsAll(s[1..], f);
      }
    }
  }

  lemma AscendingCons(first: FileSum, rest: seq<FileSum>)
    requires Ascending(rest) && forall j | 0 <= j < |rest| :: !Less(rest[j].path, first.path)
    ensures Ascending([first] + rest)
  {
    hide Less;
  }

  lemma {:induction false} InsertAscends(s: seq<FileSum>, f: FileSum)
    requires Ascending(s)
    ensures Ascending(Insert(s, f))
  {
    hide Less;
    if s == [] {
    } else if Less(f.path, s[0].path) {
      LessTotal(f.path, s[0].path);
      LessTotal(s[0].path, s[0].path);
      forall j | 0 <= j < |s| ensures !Less(s[j].path, f.path) {
        LessTransitive(f.path, s[0].path, s[j].path);
      }
      AscendingCons(f, s);
    } else {
      var rest := Insert(s[1..], f);
      InsertAscends(s[1..], f);
      InsertKeepsAll(s[1..], f);
      forall j | 0 <= j < |rest| ensures !Less(rest[j].path, s[0].path) {
        assert rest[j] in multiset(rest);
        assert rest[j] == f || rest[j] in s[1..];
      }
      AscendingCons(s[0], rest);
    }
  }

  lemma {:induction false} SortedKeeps(s: seq<FileSum>)
    ensures multiset(Sorted(s)) == multiset(s) && Ascending(Sorted(s)) && |Sorted(s)| == |s|
  {
    if s != [] {
      var n := |s| - 1;
      SortedKeeps(s[..n]);
      InsertKeepsAll(Sorted(s[..n]), s[n]);
      InsertAscends(Sorted(s[..n]), s[n]);
      assert s == s[..n] + [s[n]];
    }
    assert |Sorted(s)| == |multiset(Sorted(s))| == |multiset(s)| == |s|;
  }

  /** No path stands for two different files. */
  ghost predicate PathsIdentify(s: seq<FileSum>) { forall f, g | f in s && g in s && f.path == g.path :: f == g }

  ghost predicate DistinctPaths(s: seq<FileSum>) { forall i, j | 0 <= i < j < |s| :: s[i].path != s[j].path }

  /** Both lists start with the same file. */
  lemma SameFirst(s: seq<FileSum>, t: seq<FileSum>)
    requires s != [] && t != [] && Ascending(s) && Ascending(t) && multiset(s) == multiset(t) && PathsIdentify(s)
    ensures s[0] == t[0]
  {
    hide Less;
    assert s[0] in multiset(t) && t[0] in multiset(s);
    assert s[0] in t && t[0] in s;
    FirstIsLeast(s, t[0]);
    FirstIsLeast(t, s[0]);
    LessTotal(s[0].path, t[0].path);
  }

  lemma WithoutFirst(s: seq<FileSum>)
    requires s != []
    ensures multiset(s[1..]) == multiset(s) - multiset{s[0]}
    ensures Ascending(s) ==> Ascending(s[1..])
    ensures PathsIdentify(s) ==> PathsIdentify(s[1..])
  {
    hide Less;
    assert s == [s[0]] + s[1..];
  }

  lemma {:induction false} AscendingUnique(s: seq<FileSum>, t: seq<FileSum>)
    requires Ascending(s) && Ascending(t) && multiset(s) == multiset(t) && PathsIdentify(s)
    ensures s == t
  {
    hide Less, Ascending, PathsIdentify;
    assert |s| == |multiset(s)| == |multiset(t)| == |t|;
    if s != [] {
      SameFirst(s, t);
      WithoutFirst(s);
      WithoutFirst(t);
      AscendingUnique(s[1..], t[1..]);
      assert s == [s[0]] + s[1..] && t == [t[0]] + t[1..];
    }
  }

  lemma FirstIsLeast(s: seq<FileSum>, f: FileSum)
    requires s != [] && Ascending(s) && f in s
    ensures !Less(f.path, s[0].path)
  {
    LessTotal(f.path, f.path);
  }

  // ---------- the two comparisons ----------

  method CompareInStep(recorded: seq<FileSum>, actual: seq<FileSum>, allowed: string -> bool) returns (ok: bool)
    ensures ok <==> Sorted(recorded) == Sorted(actual) && forall f | f in recorded :: allowed(f.path)
  {
    hide Sorted;
    var left, right := Sorted(recorded), Sorted(actual);
    SortedKeeps(recorded);
    forall f ensures f in recorded <==> f in left {
      assert f in multiset(left) <==> f in multiset(recorded);
    }
    if |right| != |left| {
      return false;
    }
    for i := 0 to |right|
      invariant forall j | 0 <= j < i :: left[j] == right[j] && allowed(left[j].path)
    {
      if right[i] != left[i] || !allowed(left[i].path) {
        assert left[i] in left;
        return false;
      }
    }
    return true;
  }

  /** The last file recorded under a path. */
  function LastAt(recorded: seq<FileSum>, path: string): Option<FileSum> {
    if recorded == [] then None
    else if recorded[|recorded| - 1].path == path then Some(recorded[|recorded| - 1])
    else LastAt(recorded[..|recorded| - 1], path)
  }

  predicate CountsAndFinds(recorded: seq<FileSum>, actual: seq<FileSum>) {
    |actual| == |recorded| && forall i | 0 <= i < |actual| :: LastAt(recorded, actual[i].path) == Some(actual[i])
  }

  method CompareByLookup(recorded: seq<FileSum>, actual: seq<FileSum>) returns (ok: bool)
    ensures ok <==> CountsAndFinds(recorded, actual)
  {
    if |actual| != |recorded| {
      return false;
    }
    var expected: map<string, FileSum> := map[];
    for i := 0 to |recorded|
      invariant forall path :: path in expected <==> LastAt(recorded[..i], path).Some?
      invariant forall path | path in expected :: LastAt(recorded[..i], path) == Some(expected[path])
    {
      assert recorded[..i + 1][..i] == recorded[..i];
      expected := expected[recorded[i].path := recorded[i]];
    }
    assert recorded[..|recorded|] == recorded;
    for i := 0 to |actual|
      invariant forall j | 0 <= j < i :: LastAt(recorded, actual[j].path) == Some(actual[j])
    {
      var file := actual[i];
      if file.path !in expected {
        return false;
      }
      LastAtPath(recorded, file.path);
      var want := expected[file.path];
      if want.digest != file.digest || want.size != file.size {
        return false;
      }
      assert want == file;
    }
    return true;
  }

  lemma {:induction false} LastAtPath(recorded: seq<FileSum>, path: string)
    ensures LastAt(recorded, path).Some? ==>
            LastAt(recorded, path).value.path == path && LastAt(recorded, path).value in recorded
    ensures LastAt(recorded, path).None? ==> forall f | f in recorded :: f.path != path
  {
    if recorded != [] {
      var n := |recorded| - 1;
      LastAtPath(recorded[..n], path);
      assert recorded == recorded[..n] + [recorded[n]];
    }
  }

  // ---------- both decide the same relation ----------

  lemma DistinctIdentify(s: seq<FileSum>)
    requires DistinctPaths(s)
    ensures PathsIdentify(s) && forall f :: multiset(s)[f] <= 1
  {
    forall f ensures multiset(s)[f] <= 1 {
      OccursOnce(s, f);
    }
  }

  lemma {:induction false} OccursOnce(s: seq<FileSum>, f: FileSum)
    requires DistinctPaths(s)
    ensures multiset(s)[f] <= 1
  {
    if s != [] {
      var n := |s| - 1;
      OccursOnce(s[..n], f);
      assert s == s[..n] + [s[n]];
      assert s[n] !in s[..n];
    }
  }

  /** The sorted comparison accepts exactly a rearrangement of the files found. */
  lemma InStepExactly(recorded: seq<FileSum>, actual: seq<FileSum>)
    requires DistinctPaths(actual)
    ensures Sorted(recorded) == Sorted(actual) <==> multiset(recorded) == multiset(actual)
  {
    SortedKeeps(recorded);
    SortedKeeps(actual);
    DistinctIdentify(actual);
    if multiset(recorded) == multiset(actual) {
      forall f | f in Sorted(actual) ensures f in actual { assert f in multiset(actual); }
      AscendingUnique(Sorted(actual), Sorted(recorded));
    }
  }

  lemma SameSizeSubset(a: multiset<FileSum>, b: multiset<FileSum>)
    requires a <= b && |a| == |b|
    ensures a == b
  {
    assert b == a + (b - a);
    assert |b - a| == 0;
  }

  /** So does the lookup by path: as many files recorded as found, and each found one recorded, leaves no room. */
  lemma LookupExactly(recorded: seq<FileSum>, actual: seq<FileSum>)
    requires DistinctPaths(actual)
    ensures CountsAndFinds(recorded, actual) <==> multiset(recorded) == multiset(actual)
  {
    DistinctIdentify(actual);
    if CountsAndFinds(recorded, actual) {
      forall f | f in multiset(actual) ensures multiset(actual)[f] <= multiset(recorded)[f] {
        assert f in actual;
        LastAtPath(recorded, f.path);
        assert f in recorded;
      }
      assert multiset(actual) <= multiset(recorded);
      SameSizeSubset(multiset(actual), multiset(recorded));
    }
    if multiset(recorded) == multiset(actual) {
      assert |recorded| == |multiset(recorded)| == |multiset(actual)| == |actual|;
      forall i | 0 <= i < |actual| ensures LastAt(recorded, actual[i].path) == Some(actual[i]) {
        LastAtPath(recorded, actual[i].path);
        assert actual[i] in multiset(actual) && actual[i] in recorded;
        var found := LastAt(recorded, actual[i].path).value;
        assert found in multiset(recorded) && found in actual;
      }
    }
  }

  /** The relation itself: nothing recorded twice, and recorded is what is found. */
  lemma SameFilesExactly(recorded: seq<FileSum>, actual: seq<FileSum>)
    requires DistinctPaths(actual)
    ensures multiset(recorded) == multiset(actual) <==>
            (forall i, j | 0 <= i < j < |recorded| :: recorded[i] != recorded[j]) &&
            (forall f :: f in recorded <==> f in actual)
  {
    DistinctIdentify(actual);
    if multiset(recorded) == multiset(actual) {
      forall f ensures f in recorded <==> f in actual {
        assert f in multiset(recorded) <==> f in multiset(actual);
      }
      forall i, j | 0 <= i < j < |recorded| ensures recorded[i] != recorded[j] {
        OnceMeansApart(recorded, i, j);
      }
    }
    if (forall i, j | 0 <= i < j < |recorded| :: recorded[i] != recorded[j]) &&
      (forall f :: f in recorded <==> f in actual) {
      forall f ensures multiset(recorded)[f] == multiset(actual)[f] {
        ApartMeansOnce(recorded, f);
        assert f in multiset(recorded) <==> f in multiset(actual);
      }
      assert multiset(recorded) == multiset(actual);
    }
  }

  lemma OnceMeansApart(s: seq<FileSum>, i: nat, j: nat)
    requires i < j < |s| && forall f :: multiset(s)[f] <= 1
    ensures s[i] != s[j]
  {
    assert s == s[..j] + s[j..];
    assert multiset(s) == multiset(s[..j]) + multiset(s[j..]);
    assert s[..j][i] == s[i] && s[j..][0] == s[j];
    assert s[i] in multiset(s[..j]) && s[j] in multiset(s[j..]);
    assert s[i] == s[j] ==> multiset(s)[s[i]] >= 2;
  }

  lemma {:induction false} ApartMeansOnce(s: seq<FileSum>, f: FileSum)
    requires forall i, j | 0 <= i < j < |s| :: s[i] != s[j]
    ensures multiset(s)[f] <= 1
  {
    if s != [] {
      var n := |s| - 1;
      ApartMeansOnce(s[..n], f);
      assert s == s[..n] + [s[n]];
      assert s[n] !in s[..n];
    }
  }

  /** Whatever was recorded, the two comparisons accept it or refuse it together. */
  lemma ComparisonsAgree(recorded: seq<FileSum>, actual: seq<FileSum>)
    requires DistinctPaths(actual)
    ensures Sorted(recorded) == Sorted(actual) <==> CountsAndFinds(recorded, actual)
  {
    InStepExactly(recorded, actual);
    LookupExactly(recorded, actual);
  }
}
