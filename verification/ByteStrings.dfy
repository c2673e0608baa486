/** Byte strings: the keys of the state tree, their prefixes and the order in which both
    backends list them. */
module ByteStrings {

  newtype byte = x: int | 0 <= x < 256

  type Bytes = seq<byte>

  datatype Option<+T> = None | Some(value: T)

  /** The bytes of a program literal in the ASCII range. */
  function Ascii(s: string): (b: Bytes)
    ensures |b| == |s|
  {
    seq(|s|, i requires 0 <= i < |s| => (s[i] as int % 256) as byte)
  }

  predicate HasPrefix(k: Bytes, p: Bytes) {
    |p| <= |k| && k[..|p|] == p
  }

  /** bytes.Compare(a, b) < 0 */
  predicate LexLess(a: Bytes, b: Bytes) {
    if b == [] then false
    else if a == [] then true
    else a[0] < b[0] || (a[0] == b[0] && LexLess(a[1..], b[1..]))
  }

  lemma {:induction false} LexIrreflexive(a: Bytes)
    ensures !LexLess(a, a)
  {
    if a != [] {
      LexIrreflexive(a[1..]);
    }
  }

  lemma {:induction false} LexTransitive(a: Bytes, b: Bytes, c: Bytes)
    requires LexLess(a, b) && LexLess(b, c)
    ensures LexLess(a, c)
  {
    if a != [] && a[0] == b[0] == c[0] {
      LexTransitive(a[1..], b[1..], c[1..]);
    }
  }

  lemma {:induction false} LexTrichotomy(a: Bytes, b: Bytes)
    ensures LexLess(a, b) || a == b || LexLess(b, a)
  {
    if a != [] && b != [] && a[0] == b[0] {
      LexTrichotomy(a[1..], b[1..]);
      assert a == [a[0]] + a[1..] && b == [b[0]] + b[1..];
    }
  }

  lemma LexAsymmetric(a: Bytes, b: Bytes)
    requires LexLess(a, b)
    ensures !LexLess(b, a)
  {
  }

  // ----- sets of byte strings as ascending lists

  ghost function Elements<T>(s: seq<T>): set<T> {
    set x | x in s
  }

  ghost predicate NoRepeats<T>(s: seq<T>) {
    forall i, j :: 0 <= i < j < |s| ==> s[i] != s[j]
  }

  lemma {:induction false} NoRepeatsSize<T>(s: seq<T>)
    requires NoRepeats(s)
    ensures |Elements(s)| == |s|
  {
    if s != [] {
      var t := s[..|s| - 1];
      NoRepeatsSize(t);
      assert Elements(s) == Elements(t) + {s[|s| - 1]} by {
        forall x | x in Elements(s) ensures x in Elements(t) + {s[|s| - 1]} {
          var i :| 0 <= i < |s| && s[i] == x;
          assert i < |t| ==> t[i] == x;
        }
      }
    }
  }

  lemma SubsetSize<T>(a: set<T>, b: set<T>)
    requires a <= b
    ensures |a| <= |b| && (|a| == |b| ==> a == b)
  {
    assert b == a + (b - a);
    assert |b| == |a| + |b - a|;
  }

  lemma ProperDifference<T>(a: set<T>, b: set<T>)
    requires a <= b && a != b
    ensures b - a != {}
  {
    assert b == a + (b - a);
  }

  ghost predicate Ascending(ks: seq<Bytes>) {
    forall i, j :: 0 <= i < j < |ks| ==> LexLess(ks[i], ks[j])
  }

  ghost predicate IsLeast(x: Bytes, ks: set<Bytes>) {
    x in ks && forall k :: k in ks && k != x ==> LexLess(x, k)
  }

  lemma {:induction false} LeastExists(ks: set<Bytes>)
    requires ks != {}
    ensures exists x :: IsLeast(x, ks)
  {
    var x :| x in ks;
    var rest := ks - {x};
    if rest == {} {
      assert forall k :: k in ks && k != x ==> k in rest;
      assert IsLeast(x, ks);
    } else {
      LeastExists(rest);
      var y :| IsLeast(y, rest);
      LexTrichotomy(x, y);
      if LexLess(x, y) {
        forall k | k in ks && k != x ensures LexLess(x, k) {
          if k != y {
            LexTransitive(x, y, k);
          }
        }
        assert IsLeast(x, ks);
      } else {
        assert IsLeast(y, ks);
      }
    }
  }

  lemma LeastFirst(x: Bytes, rest: seq<Bytes>, ks: set<Bytes>)
    requires IsLeast(x, ks) && Ascending(rest) && Elements(rest) == ks - {x} && |rest| == |ks - {x}|
    ensures Ascending([x] + rest) && Elements([x] + rest) == ks && |[x] + rest| == |ks|
  {
    assert forall i :: 0 <= i < |rest| ==> rest[i] in Elements(rest);
    assert ks == {x} + (ks - {x});
    forall y ensures y in [x] + rest <==> y in ks {
      assert y in [x] + rest <==> y == x || y in rest;
      assert y in rest <==> y in Elements(rest);
    }
  }

  /** The keys of a set in ascending order. */
  ghost function SortedKeys(ks: set<Bytes>): (r: seq<Bytes>)
    ensures Ascending(r) && Elements(r) == ks && |r| == |ks|
  {
    if ks == {} then []
    else
      LeastExists(ks);
      var x :| IsLeast(x, ks);
      var rest := SortedKeys(ks - {x});
      LeastFirst(x, rest, ks);
      [x] + rest
  }

  /** An ascending list is determined by its elements. */
  lemma {:induction false} AscendingUnique(a: seq<Bytes>, b: seq<Bytes>)
    requires Ascending(a) && Ascending(b) && Elements(a) == Elements(b)
    ensures a == b
  {
    assert a == [] || a[0] in Elements(a);
    assert b == [] || b[0] in Elements(b);
    if a != [] {
      assert a[0] in Elements(b) && b[0] in Elements(a);
      if a[0] != b[0] {
        var i :| 0 <= i < |b| && b[i] == a[0];
        var j :| 0 <= j < |a| && a[j] == b[0];
        LexAsymmetric(a[0], b[0]);
        assert false;
      }
      TailElements(a);
      TailElements(b);
      AscendingUnique(a[1..], b[1..]);
      assert a == [a[0]] + a[1..] && b == [b[0]] + b[1..];
    }
  }

  lemma TailElements(a: seq<Bytes>)
    requires a != [] && Ascending(a)
    ensures Ascending(a[1..]) && Elements(a[1..]) == Elements(a) - {a[0]}
  {
    LexIrreflexive(a[0]);
    forall x | x in Elements(a) - {a[0]} ensures x in a[1..] {
      var i :| 0 <= i < |a| && a[i] == x;
      assert a[1..][i - 1] == x;
    }
    forall x | x in a[1..] ensures x in Elements(a) - {a[0]} {
      var i :| 0 <= i < |a[1..]| && a[1..][i] == x;
      assert a[i + 1] == x && LexLess(a[0], a[i + 1]);
    }
  }

  lemma AscendingDistinct(a: seq<Bytes>, i: int, j: int)
    requires Ascending(a) && 0 <= i < |a| && 0 <= j < |a| && a[i] == a[j]
    ensures i == j
  {
    LexIrreflexive(a[i]);
  }

  lemma {:induction false} LexCommonPrefix(p: Bytes, a: Bytes, b: Bytes)
    ensures LexLess(p + a, p + b) <==> LexLess(a, b)
  {
    if p == [] {
      assert p + a == a && p + b == b;
    } else {
      assert (p + a)[1..] == p[1..] + a && (p + b)[1..] == p[1..] + b;
      LexCommonPrefix(p[1..], a, b);
    }
  }
}
