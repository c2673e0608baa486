/** The two storage backends. The memory backend filters and sorts; the tree backend scans a
    half-open key range. Both are proved against one definition, Scan. */
module Engine {
  import opened ByteStrings
  import opened Sorting

  datatype KV<+V> = KV(key: Bytes, value: V)

  ghost function PrefixedKeys<V>(data: map<Bytes, V>, p: Bytes): set<Bytes> {
    set k | k in data && HasPrefix(k, p)
  }

  /** The entries under a prefix, in ascending key order. */
  ghost function Scan<V>(data: map<Bytes, V>, p: Bytes): (r: seq<KV<V>>)
    ensures |r| == |SortedKeys(PrefixedKeys(data, p))|
    ensures forall i :: 0 <= i < |r| ==>
      r[i].key in data && r[i].value == data[r[i].key] && r[i].key == SortedKeys(PrefixedKeys(data, p))[i]
  {
    var ks := SortedKeys(PrefixedKeys(data, p));
    assert forall i :: 0 <= i < |ks| ==> ks[i] in Elements(ks);
    seq(|ks|, i requires 0 <= i < |ks| => KV(ks[i], data[ks[i]]))
  }

  function Lookup<V>(data: map<Bytes, V>, k: Bytes): Option<V> {
    if k in data then Some(data[k]) else None
  }

  ghost function KeysOf<V>(s: seq<KV<V>>): (r: seq<Bytes>)
    ensures |r| == |s| && forall i :: 0 <= i < |s| ==> r[i] == s[i].key
  {
    seq(|s|, i requires 0 <= i < |s| => s[i].key)
  }

  /** A list of entries of `data` is the scan as soon as its keys ascend and are the prefixed ones. */
  lemma ScanUnique<V>(data: map<Bytes, V>, p: Bytes, s: seq<KV<V>>)
    requires Ascending(KeysOf(s)) && Elements(KeysOf(s)) == PrefixedKeys(data, p)
    requires forall i :: 0 <= i < |s| ==> s[i].key in data && s[i].value == data[s[i].key]
    ensures s == Scan(data, p)
  {
    AscendingUnique(KeysOf(s), SortedKeys(PrefixedKeys(data, p)));
    var t := Scan(data, p);
    assert forall i :: 0 <= i < |s| ==> s[i] == KV(s[i].key, s[i].value) && KeysOf(s)[i] == t[i].key;
  }

  lemma ScanMembers<V>(data: map<Bytes, V>, p: Bytes)
    ensures forall i :: 0 <= i < |Scan(data, p)| ==> HasPrefix(Scan(data, p)[i].key, p)
    ensures forall k :: k in data && HasPrefix(k, p) ==>
      exists i :: 0 <= i < |Scan(data, p)| && Scan(data, p)[i].key == k
    ensures Ascending(KeysOf(Scan(data, p)))
  {
    var ks := SortedKeys(PrefixedKeys(data, p));
    assert KeysOf(Scan(data, p)) == ks;
    forall i | 0 <= i < |Scan(data, p)| ensures HasPrefix(Scan(data, p)[i].key, p) {
      assert ks[i] in Elements(ks);
    }
    forall k | k in data && HasPrefix(k, p)
      ensures exists i :: 0 <= i < |Scan(data, p)| && Scan(data, p)[i].key == k
    {
      assert k in Elements(ks);
      var i :| 0 <= i < |ks| && ks[i] == k;
      assert Scan(data, p)[i].key == k;
    }
  }

  // ----- the end of a prefix range

  const MAX_BYTE: byte := 255

  /** The end of the key range of a prefix: nothing when no byte string lies above the range. */
  function RangeEnd(p: Bytes): Option<Bytes> {
    if p == [] then None
    else match RangeEnd(p[1..])
      case Some(e) => Some([p[0]] + e)
      case None => if p[0] < MAX_BYTE then Some([p[0] + 1]) else None
  }

  /** A key carries the prefix exactly when it lies in the half-open range [p, RangeEnd(p)). */
  lemma {:induction false} RangeIsPrefix(k: Bytes, p: Bytes)
    ensures HasPrefix(k, p) <==>
      !LexLess(k, p) && (RangeEnd(p).None? || LexLess(k, RangeEnd(p).value))
  {
    if p != [] && k != [] {
      RangeIsPrefix(k[1..], p[1..]);
      PrefixStep(k, p);
      match RangeEnd(p[1..]) {
        case None =>
        case Some(e) =>
          assert ([p[0]] + e)[1..] == e;
      }
    }
  }

  lemma PrefixStep(k: Bytes, p: Bytes)
    requires p != [] && k != []
    ensures HasPrefix(k, p) <==> k[0] == p[0] && HasPrefix(k[1..], p[1..])
  {
  }

  /** What the backward search over the buffer finds, in terms of the recursive definition. */
  lemma {:induction false} RangeEndAt(p: Bytes, i: int)
    requires -1 <= i < |p|
    requires forall j :: i < j < |p| ==> p[j] == MAX_BYTE
    requires i >= 0 ==> p[i] < MAX_BYTE
    ensures RangeEnd(p) == if i < 0 then None else Some(p[..i] + [p[i] + 1])
  {
    if p != [] {
      if i <= 0 {
        RangeEndAt(p[1..], -1);
        assert i == 0 ==> p[..0] + [p[0] + 1] == [p[0] + 1];
      } else {
        RangeEndAt(p[1..], i - 1);
        assert [p[0]] + (p[1..][..i - 1] + [p[1..][i - 1] + 1]) == p[..i] + [p[i] + 1];
      }
    }
  }

  method PrefixRangeEnd(prefix: Bytes) returns (end: Option<Bytes>)
    ensures end == RangeEnd(prefix)
    ensures forall k :: HasPrefix(k, prefix) <==>
      !LexLess(k, prefix) && (end.None? || LexLess(k, end.value))
  {
    forall k {
      RangeIsPrefix(k, prefix);
    }
    if |prefix| == 0 {
      return None;
    }
    var buf := new byte[|prefix|](i requires 0 <= i < |prefix| => prefix[i]);
    var i := |prefix| - 1;
    while i >= 0
      invariant -1 <= i < |prefix|
      invariant buf[..] == prefix
      invariant forall j :: i < j < |prefix| ==> prefix[j] == MAX_BYTE
    {
      if buf[i] < MAX_BYTE {
        buf[i] := buf[i] + 1;
        RangeEndAt(prefix, i);
        assert buf[..i + 1] == prefix[..i] + [prefix[i] + 1];
        return Some(buf[..i + 1]);
      }
      i := i - 1;
    }
    RangeEndAt(prefix, -1);
    return None;
  }

  // ----- collecting entries in an arbitrary order, then sorting

  predicate KeyLess<V>(a: KV<V>, b: KV<V>) {
    LexLess(a.key, b.key)
  }

  lemma KeyLessStrictWeak<V(!new)>()
    ensures StrictWeak((a: KV<V>, b: KV<V>) => KeyLess(a, b))
  {
    forall a: KV<V>, b: KV<V> | KeyLess(a, b) ensures !KeyLess(b, a) {
      LexAsymmetric(a.key, b.key);
    }
    forall a: KV<V>, b: KV<V>, c: KV<V> | !KeyLess(b, a) && !KeyLess(c, b) ensures !KeyLess(c, a) {
      LexTrichotomy(a.key, b.key);
      LexTrichotomy(b.key, c.key);
      if KeyLess(a, b) && KeyLess(b, c) {
        LexTransitive(a.key, b.key, c.key);
      }
      LexTrichotomy(a.key, c.key);
      if KeyLess(c, a) {
        if KeyLess(a, c) {
          LexAsymmetric(a.key, c.key);
        }
      }
    }
  }

  /** Entries collected in any order, each once, become the scan when sorted by key. */
  lemma SortedIsScan<V(!new)>(data: map<Bytes, V>, p: Bytes, out: seq<KV<V>>, s: seq<KV<V>>)
    requires multiset(s) == multiset(out)
    requires Sorted(s, (a: KV<V>, b: KV<V>) => KeyLess(a, b))
    requires forall i, j :: 0 <= i < j < |out| ==> out[i].key != out[j].key
    requires forall x :: x in out <==> x.key in data && HasPrefix(x.key, p) && x.value == data[x.key]
    ensures s == Scan(data, p)
  {
    MultisetElements(s, out);
    DistinctKeysPermute(s, out);
    forall i, j | 0 <= i < j < |s| ensures LexLess(s[i].key, s[j].key) {
      assert !KeyLess(s[j], s[i]);
      LexTrichotomy(s[i].key, s[j].key);
    }
    forall k | k in PrefixedKeys(data, p) ensures k in KeysOf(s) {
      assert KV(k, data[k]) in out;
      var i :| 0 <= i < |s| && s[i] == KV(k, data[k]);
      assert KeysOf(s)[i] == k;
    }
    forall i | 0 <= i < |s| ensures s[i].key in PrefixedKeys(data, p) && s[i].value == data[s[i].key] {
      assert s[i] in out;
    }
    ScanUnique(data, p, s);
  }

  lemma DistinctKeysPermute<V>(s: seq<KV<V>>, out: seq<KV<V>>)
    requires multiset(s) == multiset(out)
    requires forall i, j :: 0 <= i < j < |out| ==> out[i].key != out[j].key
    ensures forall i, j :: 0 <= i < j < |s| ==> s[i].key != s[j].key
  {
    PermutedNoRepeats(out, s);
    forall i, j | 0 <= i < j < |s| ensures s[i].key != s[j].key {
      assert s[i] in Elements(out) && s[j] in Elements(out);
      var a :| 0 <= a < |out| && out[a] == s[i];
      var b :| 0 <= b < |out| && out[b] == s[j];
      assert a != b;
    }
  }

  // ----- the backends

  class MemoryEngine<V(!new)> {
    var data: map<Bytes, V>
    var version: nat

    constructor ()
      ensures data == map[] && version == 0
    {
      data := map[];
      version := 0;
    }

    method Get(key: Bytes) returns (v: Option<V>)
      ensures v == Lookup(data, key)
    {
      v := if key in data then Some(data[key]) else None;
    }

    method Set(key: Bytes, value: V)
      modifies this`data
      ensures data == old(data)[key := value]
    {
      data := data[key := value];
    }

    method Delete(key: Bytes)
      modifies this`data
      ensures data == old(data) - {key}
    {
      data := data - {key};
    }

    /** Visits the map in an arbitrary order, keeps the prefixed entries, sorts them by key. */
    method IteratePrefix(prefix: Bytes) returns (out: seq<KV<V>>)
      ensures out == Scan(data, prefix)
    {
      var found: seq<KV<V>> := [];
      var rest := data.Keys;
      while rest != {}
        invariant rest <= data.Keys
        invariant forall i, j :: 0 <= i < j < |found| ==> found[i].key != found[j].key
        invariant forall x :: x in found <==>
          x.key in data && x.key !in rest && HasPrefix(x.key, prefix) && x.value == data[x.key]
        decreases |rest|
      {
        var k :| k in rest;
        rest := rest - {k};
        if HasPrefix(k, prefix) {
          found := found + [KV(k, data[k])];
        }
      }
      KeyLessStrictWeak<V>();
      out := Sort(found, (a: KV<V>, b: KV<V>) => KeyLess(a, b));
      SortedIsScan(data, prefix, found, out);
    }

    /** The entries in the order in which they are fed to the hash, and the new version. */
    method Commit() returns (fed: seq<KV<V>>, newVersion: nat)
      modifies this`version
      ensures version == newVersion == old(version) + 1
      ensures fed == Scan(data, [])
    {
      version := version + 1;
      fed := IteratePrefix([]);
      newVersion := version;
    }
  }

  class TreeEngine<V(!new)> {
    var tree: map<Bytes, V>
    var version: nat

    constructor ()
      ensures tree == map[] && version == 0
    {
      tree := map[];
      version := 0;
    }

    method Get(key: Bytes) returns (v: Option<V>)
      ensures v == Lookup(tree, key)
    {
      v := if key in tree then Some(tree[key]) else None;
    }

    method Set(key: Bytes, value: V)
      modifies this`tree
      ensures tree == old(tree)[key := value]
    {
      tree := tree[key := value];
    }

    method Delete(key: Bytes)
      modifies this`tree
      ensures tree == old(tree) - {key}
    {
      tree := tree - {key};
    }

    /** The ordered iterator of the tree library: the entries with start <= key < end, ascending. */
    method Iterator(start: Bytes, end: Option<Bytes>) returns (items: seq<KV<V>>)
      ensures Ascending(KeysOf(items))
      ensures Elements(KeysOf(items)) ==
        set k | k in tree && !LexLess(k, start) && (end.None? || LexLess(k, end.value))
      ensures forall i :: 0 <= i < |items| ==>
        items[i].key in tree && items[i].value == tree[items[i].key]
    {
      var ranged := map k | k in tree && !LexLess(k, start) && (end.None? || LexLess(k, end.value)) :: tree[k];
      var view := new MemoryEngine<V>();
      view.data := ranged;
      items := view.IteratePrefix([]);
      assert PrefixedKeys(ranged, []) == ranged.Keys;
      assert KeysOf(items) == SortedKeys(ranged.Keys);
    }

    method IteratePrefix(prefix: Bytes) returns (out: seq<KV<V>>)
      ensures out == Scan(tree, prefix)
    {
      var end := PrefixRangeEnd(prefix);
      var items := Iterator(prefix, end);
      out := [];
      var i := 0;
      while i < |items|
        invariant 0 <= i <= |items| && out == items[..i]
      {
        assert KeysOf(items)[i] in Elements(KeysOf(items));
        if !HasPrefix(items[i].key, prefix) {
          // the range holds prefixed keys only, so the scan never stops early
          assert false;
          break;
        }
        out := out + [items[i]];
        i := i + 1;
      }
      assert out == items;
      ScanUnique(tree, prefix, out);
    }

    method Commit() returns (newVersion: nat)
      modifies this`version
      ensures version == newVersion == old(version) + 1
    {
      version := version + 1;
      newVersion := version;
    }
  }
}
