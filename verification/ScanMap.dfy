/** The end-of-block pattern: snapshot the entries under a prefix, rewrite each in place. */
module ScanMap {
  import opened ByteStrings
  import opened Engine

  ghost function MapPrefix<V>(data: map<Bytes, V>, p: Bytes, f: V -> V): (d: map<Bytes, V>)
    ensures d.Keys == data.Keys
  {
    map k | k in data :: if HasPrefix(k, p) then f(data[k]) else data[k]
  }

  ghost predicate AmongFirst<V>(cs: seq<KV<V>>, i: nat, k: Bytes)
    requires i <= |cs|
  {
    exists j :: 0 <= j < i && cs[j].key == k
  }

  /** The state once the first i entries of the snapshot are rewritten. */
  ghost predicate PartlyMapped<V>(data: map<Bytes, V>, cs: seq<KV<V>>, i: nat, f: V -> V, d: map<Bytes, V>)
    requires i <= |cs|
  {
    && d.Keys == data.Keys
    && (forall k :: k in data ==> d[k] == if AmongFirst(cs, i, k) then f(data[k]) else data[k])
  }

  lemma MappedNone<V>(data: map<Bytes, V>, cs: seq<KV<V>>, f: V -> V)
    ensures PartlyMapped(data, cs, 0, f, data)
  {
  }

  lemma MappedOne<V>(data: map<Bytes, V>, p: Bytes, cs: seq<KV<V>>, i: nat, f: V -> V, d: map<Bytes, V>)
    requires cs == Scan(data, p) && i < |cs| && PartlyMapped(data, cs, i, f, d)
    ensures PartlyMapped(data, cs, i + 1, f, d[cs[i].key := f(cs[i].value)])
  {
  }

  /** An entry that f leaves alone need not be written. */
  lemma MappedSame<V>(data: map<Bytes, V>, p: Bytes, cs: seq<KV<V>>, i: nat, f: V -> V, d: map<Bytes, V>)
    requires cs == Scan(data, p) && i < |cs| && PartlyMapped(data, cs, i, f, d) && f(cs[i].value) == cs[i].value
    ensures PartlyMapped(data, cs, i + 1, f, d)
  {
  }

  lemma MappedAll<V>(data: map<Bytes, V>, p: Bytes, cs: seq<KV<V>>, f: V -> V, d: map<Bytes, V>)
    requires cs == Scan(data, p) && PartlyMapped(data, cs, |cs|, f, d)
    ensures d == MapPrefix(data, p, f)
  {
    ScanMembers(data, p);
    forall k | k in data ensures AmongFirst(cs, |cs|, k) <==> HasPrefix(k, p) {
      if AmongFirst(cs, |cs|, k) {
        var j :| 0 <= j < |cs| && cs[j].key == k;
        assert HasPrefix(cs[j].key, p);
      }
    }
  }

  /** A scan depends on the entries under its prefix only. */
  lemma ScanLocal<V>(data: map<Bytes, V>, d: map<Bytes, V>, p: Bytes)
    requires forall k :: HasPrefix(k, p) ==> (k in data <==> k in d) && (k in data ==> data[k] == d[k])
    ensures Scan(data, p) == Scan(d, p)
  {
    assert PrefixedKeys(data, p) == PrefixedKeys(d, p);
    var ks := SortedKeys(PrefixedKeys(data, p));
    forall i | 0 <= i < |ks| ensures Scan(data, p)[i] == Scan(d, p)[i] {
      assert ks[i] in Elements(ks);
    }
  }
}
