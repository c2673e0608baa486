/** Every module reads and writes only the part of the tree that it owns. */
module Locality {
  import opened ByteStrings
  import opened Keys
  import opened Engine
  import opened Records
  import opened Reachability
  import opened ScanMap
  import opened CapGraph
  import opened CapSweep
  import opened CapInvariant
  import opened CapSteps
  import opened Weave
  import opened Aap
  import opened Fiat

  /** Outside the keys of o nothing changes. */
  ghost predicate TouchesOnly(data: State, d: State, o: Owner) {
    forall k :: OwnerOf(k) != o ==> (k in data <==> k in d) && (k in data ==> data[k] == d[k])
  }

  lemma WriteTouchesOnly(data: State, k: Bytes, v: Value, o: Owner)
    requires OwnerOf(k) == o
    ensures TouchesOnly(data, data[k := v], o)
  {
  }

  lemma KeyOwner(ns: Namespace, rest: Bytes)
    ensures OwnerOf(Key(ns, rest)) == OwnerOfNamespace(ns)
  {
    hide Prefix, OwnerOf;
    NamespaceOwner(ns, Key(ns, rest));
  }

  lemma MapPrefixLocal(data: State, d: State, ns: Namespace, f: Value -> Value)
    ensures TouchesOnly(data, MapPrefix(data, Prefix(ns), f), OwnerOfNamespace(ns))
    ensures SameOwned(data, d, OwnerOfNamespace(ns)) ==>
      SameOwned(MapPrefix(data, Prefix(ns), f), MapPrefix(d, Prefix(ns), f), OwnerOfNamespace(ns)) &&
      Scan(data, Prefix(ns)) == Scan(d, Prefix(ns))
  {
    hide Prefix, OwnerOf, Scan;
    forall k | HasPrefix(k, Prefix(ns)) ensures OwnerOf(k) == OwnerOfNamespace(ns) {
      NamespaceOwner(ns, k);
    }
    if SameOwned(data, d, OwnerOfNamespace(ns)) {
      ScanLocal(data, d, Prefix(ns));
    }
  }

  // ----- end of block, module by module

  lemma WeaveLocal(data: State, d: State, now: int)
    ensures TouchesOnly(data, WeaveEnd(data, now), Owner.Weave)
    ensures SameOwned(data, d, Owner.Weave) ==>
      SameOwned(WeaveEnd(data, now), WeaveEnd(d, now), Owner.Weave) && WeaveEvents(data, now) == WeaveEvents(d, now)
  {
    hide Prefix, OwnerOf, Scan, MapPrefix;
    MapPrefixLocal(data, d, WeaveDag, Ticker(now));
  }

  lemma AapLocal(data: State, d: State, now: int)
    ensures TouchesOnly(data, AapEnd(data, now), Owner.Aap)
    ensures SameOwned(data, d, Owner.Aap) ==>
      SameOwned(AapEnd(data, now), AapEnd(d, now), Owner.Aap) && AapEvents(data, now) == AapEvents(d, now)
  {
    hide Prefix, OwnerOf, Scan, MapPrefix;
    MapPrefixLocal(data, d, AapTask, HeartbeatCheck(now));
  }

  lemma FiatLocal(data: State, d: State)
    ensures SameOwned(data, d, Owner.Fiat) ==> FiatEvents(data) == FiatEvents(d)
  {
    hide Prefix, OwnerOf;
    KeyOwner(FiatPool, []);
  }

  lemma MarkedTouches(data: State, ids: set<Bytes>, s: TokenStatus)
    ensures TouchesOnly(data, Marked(data, ids, s), Owner.Cap)
  {
    hide Prefix, OwnerOf;
    forall k | OwnerOf(k) != Owner.Cap ensures !IsUtxoKey(k) {
      if IsUtxoKey(k) {
        NamespaceOwner(CapUtxo, k);
      }
    }
  }

  lemma SameTokensSeen(data: State, d: State)
    requires SameOwned(data, d, Owner.Cap)
    ensures White(data) == White(d)
    ensures forall p :: Kids(data.Keys, p) == Kids(d.Keys, p)
  {
    hide Prefix, OwnerOf;
    OtherOwnersKeepTokens(data, d);
    WhiteIffAll(data);
    WhiteIffAll(d);
    forall id ensures id in White(data) <==> id in White(d) {
    }
    forall p ensures Kids(data.Keys, p) == Kids(d.Keys, p) {
      forall k | HasPrefix(k, DeriveDir(p)) ensures k in data.Keys <==> k in d.Keys {
        DirInDerive(p, k);
      }
      assert (set k | k in data.Keys && HasPrefix(k, DeriveDir(p))) == (set k | k in d.Keys && HasPrefix(k, DeriveDir(p)));
    }
  }

  lemma CapLocal(data: State, d: State, now: int)
    ensures TouchesOnly(data, SweepSpec(data, now), Owner.Cap)
    ensures SameOwned(data, d, Owner.Cap) ==>
      SameOwned(SweepSpec(data, now), SweepSpec(d, now), Owner.Cap) && SweepEvents(data, now) == SweepEvents(d, now)
  {
    hide Prefix, OwnerOf, Expiring;
    MarkedTouches(data, Expiring(data, now), Expired);
    if SameOwned(data, d, Owner.Cap) {
      SameExpiring(data, d, now);
    }
  }

  lemma SameExpiring(data: State, d: State, now: int)
    requires SameOwned(data, d, Owner.Cap)
    ensures Due(data, now) == Due(d, now) && Expiring(data, now) == Expiring(d, now)
  {
    hide Prefix, OwnerOf, Kids, White;
    SameTokensSeen(data, d);
    OtherOwnersKeepTokens(data, d);
    SameReachFrom(Derived(data.Keys), Derived(d.Keys), White(data), Due(data, now));
  }
}
