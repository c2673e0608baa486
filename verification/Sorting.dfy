/** The contract of Go's sort.Slice: any order `less` that is a strict weak order is accepted,
    and the result is an inversion-free rearrangement. */
module Sorting {
  import opened ByteStrings

  ghost predicate StrictWeak<T(!new)>(less: (T, T) -> bool) {
    && (forall x, y :: less(x, y) ==> !less(y, x))
    && (forall x, y, z :: !less(y, x) && !less(z, y) ==> !less(z, x))
  }

  ghost predicate Sorted<T>(s: seq<T>, less: (T, T) -> bool) {
    forall i, j :: 0 <= i < j < |s| ==> !less(s[j], s[i])
  }

  method Place<T(!new)>(r: seq<T>, x: T, less: (T, T) -> bool) returns (j: nat)
    ensures j <= |r| && (j > 0 ==> !less(x, r[j - 1]))
    ensures forall k :: j <= k < |r| ==> less(x, r[k])
  {
    j := |r|;
    while j > 0 && less(x, r[j - 1])
      invariant 0 <= j <= |r|
      invariant forall k :: j <= k < |r| ==> less(x, r[k])
    {
      j := j - 1;
    }
  }

  method Sort<T(!new)>(s: seq<T>, less: (T, T) -> bool) returns (r: seq<T>)
    requires StrictWeak(less)
    ensures Sorted(r, less)
    ensures multiset(r) == multiset(s)
  {
    hide StrictWeak, Sorted;
    r := [];
    var i := 0;
    assert Sorted(r, less) by {
      SortedEmpty(less);
    }
    while i < |s|
      invariant 0 <= i <= |s|
      invariant Sorted(r, less)
      invariant multiset(r) == multiset(s[..i])
    {
      var j := Place(r, s[i], less);
      InsertSorted(r, j, s[i], less);
      InsertCounts(r, j, s[i]);
      r := r[..j] + [s[i]] + r[j..];
      assert s[..i + 1] == s[..i] + [s[i]];
      i := i + 1;
    }
    assert s[..|s|] == s;
  }

  lemma SortedEmpty<T>(less: (T, T) -> bool)
    ensures Sorted([], less)
  {
  }

  lemma InsertCounts<T>(r: seq<T>, j: nat, x: T)
    requires j <= |r|
    ensures multiset(r[..j] + [x] + r[j..]) == multiset(r) + multiset{x}
  {
    assert r == r[..j] + r[j..];
  }

  lemma InsertSorted<T(!new)>(r: seq<T>, j: nat, x: T, less: (T, T) -> bool)
    requires StrictWeak(less) && Sorted(r, less) && j <= |r|
    requires forall k :: j <= k < |r| ==> less(x, r[k])
    requires j > 0 ==> !less(x, r[j - 1])
    ensures Sorted(r[..j] + [x] + r[j..], less)
  {
  }

  lemma MultisetElements<T>(a: seq<T>, b: seq<T>)
    requires multiset(a) == multiset(b)
    ensures |a| == |b| && forall x :: x in a <==> x in b
  {
    assert |multiset(a)| == |a| && |multiset(b)| == |b|;
    forall x ensures x in a <==> x in b {
      assert x in multiset(a) <==> x in a;
      assert x in multiset(b) <==> x in b;
    }
  }

  lemma {:induction false} DistinctCounts<T>(s: seq<T>, x: T)
    requires NoRepeats(s)
    ensures multiset(s)[x] <= 1
  {
    if s != [] {
      var t := s[..|s| - 1];
      DistinctCounts(t, x);
      assert s == t + [s[|s| - 1]];
      assert s[|s| - 1] !in multiset(t) by {
        assert forall i :: 0 <= i < |t| ==> t[i] == s[i];
      }
    }
  }

  /** A rearrangement of a list without repeats has none. */
  lemma PermutedNoRepeats<T>(s: seq<T>, t: seq<T>)
    requires NoRepeats(s) && multiset(s) == multiset(t)
    ensures NoRepeats(t) && Elements(t) == Elements(s)
  {
    MultisetElements(s, t);
    forall i, j | 0 <= i < j < |t| && t[i] == t[j] ensures false {
      DistinctCounts(s, t[i]);
      TwiceInMultiset(t, i, j);
    }
  }

  lemma TwiceInMultiset<T>(s: seq<T>, i: int, j: int)
    requires 0 <= i < j < |s| && s[i] == s[j]
    ensures multiset(s)[s[i]] >= 2
  {
    var a, b := s[..j], s[j..];
    assert s == a + b;
    assert a[i] in multiset(a) && b[0] in multiset(b);
  }

  lemma LexStrictWeak()
    ensures StrictWeak(LexLess)
  {
    forall a, b | LexLess(a, b) ensures !LexLess(b, a) {
      LexAsymmetric(a, b);
    }
    forall a, b, c | !LexLess(b, a) && !LexLess(c, b) ensures !LexLess(c, a) {
      LexTrichotomy(a, b);
      LexTrichotomy(b, c);
      if LexLess(c, a) {
        if LexLess(a, b) {
          LexTransitive(c, a, b);
        }
      }
    }
  }
}
