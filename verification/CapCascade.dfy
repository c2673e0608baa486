/** The recursive cascade over the derive index, and the two handlers that start it: revoke and
    the expiry sweep. */
module CapCascade {
  import opened ByteStrings
  import opened Codec
  import opened Keys
  import opened Engine
  import opened Records
  import opened CapGraph
  import opened Reachability

  lemma KidsFromScan(data: State, p: Bytes, children: seq<KV<Value>>)
    requires children == Scan(data, DeriveDir(p))
    ensures |children| == |Kids(data.Keys, p)|
    ensures forall i :: 0 <= i < |children| ==> children[i].key != [] && LastOf(children[i].key) == Kids(data.Keys, p)[i]
  {
  }

  /** Some vertex the cascade looks at lists a child that has no stored token. */
  /** The last part of the i-th key of the scan names the i-th child. */
  lemma KidAt(data: State, p: Bytes, children: seq<KV<Value>>, i: nat)
    requires children == Scan(data, DeriveDir(p)) && i < |children| == |Kids(data.Keys, p)|
    ensures var parts := SplitFrom(children[i].key, []); parts != [] && parts[|parts| - 1] == Kids(data.Keys, p)[i]
  {
    hide Kids, Scan, SplitFrom, DeriveDir;
    KidsFromScan(data, p, children);
  }

  lemma KidCount(data: State, p: Bytes, children: seq<KV<Value>>)
    requires children == Scan(data, DeriveDir(p))
    ensures |children| == |Kids(data.Keys, p)|
  {
    KidsFromScan(data, p, children);
  }

  ghost predicate Dangling(data: State, p: Bytes) {
    exists x :: (x == p || x in Reach(data, p)) && !KidsStored(data, x)
  }

  ghost predicate AllStored(data: State, m: set<Bytes>) {
    forall x :: x in m ==> KidsStored(data, x)
  }

  lemma StoredAfterMark(data: State, ids: set<Bytes>, s: TokenStatus, p: Bytes)
    ensures KidsStored(Marked(data, ids, s), p) <==> KidsStored(data, p)
  {
  }

  lemma StoredAfterMarkAll(data: State, ids: set<Bytes>, s: TokenStatus)
    ensures forall p :: KidsStored(Marked(data, ids, s), p) <==> KidsStored(data, p)
  {
  }

  lemma AppendNoRepeats(a: seq<Bytes>, c: Bytes, b: seq<Bytes>)
    requires NoRepeats(a) && NoRepeats(b) && c !in a && c !in b && Elements(a) !! Elements(b)
    ensures NoRepeats(a + [c] + b)
    ensures Elements(a + [c] + b) == Elements(a) + {c} + Elements(b)
  {
    var t := a + [c] + b;
    forall i, j | 0 <= i < j < |t| ensures t[i] != t[j] {
      assert i < |a| ==> a[i] in Elements(a);
      assert j > |a| ==> b[j - |a| - 1] in Elements(b);
    }
    forall x | x in Elements(a) + {c} + Elements(b) ensures x in t {
    }
  }

  /** What a cascade below p knows once its first i children are dealt with: m is painted and
      listed in affected, and every child list looked at names stored tokens only. */
  ghost predicate Visited(data: State, p: Bytes, i: nat, m: set<Bytes>, affected: seq<Bytes>) {
    && Progress(Derived(data.Keys), White(data), p, i, m)
    && NoRepeats(affected) && Elements(affected) == m
    && (forall j :: 0 <= j < i ==> IsToken(data, Kids(data.Keys, p)[j]))
    && AllStored(data, m)
  }

  lemma VisitStart(data: State, p: Bytes, s: TokenStatus)
    ensures Marked(data, {}, s) == data && Visited(data, p, 0, {}, [])
  {
  }

  lemma VisitSkip(data: State, p: Bytes, i: nat, m: set<Bytes>, affected: seq<Bytes>, s: TokenStatus)
    requires s != Unspent && Visited(data, p, i, m, affected) && i < |Kids(data.Keys, p)|
    requires IsToken(Marked(data, m, s), Kids(data.Keys, p)[i]) && !IsWhite(Marked(data, m, s), Kids(data.Keys, p)[i])
    ensures Visited(data, p, i + 1, m, affected)
  {
    hide Kids, Marked, White, ReachSet, Closed, KidsStored, NoRepeats;
    var c := Kids(data.Keys, p)[i];
    MarkedToken(data, m, s, c);
    WhiteIff(data, c);
  }

  lemma VisitNested(data: State, p: Bytes, i: nat, m: set<Bytes>, affected: seq<Bytes>, s: TokenStatus, nested: seq<Bytes>)
    requires s != Unspent && WellKeyed(data) && Visited(data, p, i, m, affected) && i < |Kids(data.Keys, p)|
    requires IsWhite(Marked(data, m, s), Kids(data.Keys, p)[i])
    requires !Dangling(Marked(data, m + {Kids(data.Keys, p)[i]}, s), Kids(data.Keys, p)[i])
    requires NoRepeats(nested)
    requires Elements(nested) == Reach(Marked(data, m + {Kids(data.Keys, p)[i]}, s), Kids(data.Keys, p)[i])
    ensures var c := Kids(data.Keys, p)[i];
      Visited(data, p, i + 1, m + {c} + Elements(nested), affected + [c] + nested)
  {
    hide Kids, Marked, Dangling, ReachSet, Closed, White, AllStored, NoRepeats;
    var c := Kids(data.Keys, p)[i];
    var below := Reach(Marked(data, m + {c}, s), c);
    assert Progress(Derived(data.Keys), White(data), p, i + 1, m + {c} + below) && c !in m && below !! m + {c} by {
      MarkOneMore(data, m, c, s);
      NestedProgress(Derived(data.Keys), White(data), p, i, m, c);
    }
    VisitListed(affected, m, c, nested, below);
    VisitStored(data, m, c, s);
    MarkedToken(data, m, s, c);
  }

  lemma VisitListed(affected: seq<Bytes>, m: set<Bytes>, c: Bytes, nested: seq<Bytes>, below: set<Bytes>)
    requires NoRepeats(affected) && Elements(affected) == m && c !in m
    requires NoRepeats(nested) && Elements(nested) == below && below !! m + {c}
    ensures NoRepeats(affected + [c] + nested) && Elements(affected + [c] + nested) == m + {c} + below
  {
    assert c in Elements(affected) <==> c in affected;
    assert c in Elements(nested) <==> c in nested;
    AppendNoRepeats(affected, c, nested);
  }

  lemma VisitStored(data: State, m: set<Bytes>, c: Bytes, s: TokenStatus)
    requires AllStored(data, m) && !Dangling(Marked(data, m + {c}, s), c)
    ensures AllStored(data, m + {c} + Reach(Marked(data, m + {c}, s), c))
  {
    hide Kids, Marked;
    var d := Marked(data, m + {c}, s);
    forall x | x in m + {c} + Reach(d, c) ensures KidsStored(data, x) {
      StoredAfterMark(data, m + {c}, s, x);
      assert x == c || x in Reach(d, c) ==> KidsStored(d, x);
    }
  }

  lemma NestedBelow(data: State, p: Bytes, i: nat, m: set<Bytes>, affected: seq<Bytes>, s: TokenStatus)
    requires s != Unspent && WellKeyed(data) && i < |Kids(data.Keys, p)| && Visited(data, p, i, m, affected)
    requires IsWhite(Marked(data, m, s), Kids(data.Keys, p)[i])
    ensures var c := Kids(data.Keys, p)[i];
      m + {c} + Reach(Marked(data, m + {c}, s), c) <= Reach(data, p)
  {
    hide Kids, Marked;
    var c := Kids(data.Keys, p)[i];
    MarkOneMore(data, m, c, s);
    NestedProgress(Derived(data.Keys), White(data), p, i, m, c);
  }

  lemma DanglingBelow(data: State, p: Bytes, i: nat, m: set<Bytes>, affected: seq<Bytes>, s: TokenStatus)
    requires s != Unspent && WellKeyed(data) && i < |Kids(data.Keys, p)| && Visited(data, p, i, m, affected)
    requires IsWhite(Marked(data, m, s), Kids(data.Keys, p)[i])
    requires Dangling(Marked(data, m + {Kids(data.Keys, p)[i]}, s), Kids(data.Keys, p)[i])
    ensures Dangling(data, p)
  {
    hide Kids, Marked;
    var c := Kids(data.Keys, p)[i];
    var d := Marked(data, m + {c}, s);
    NestedBelow(data, p, i, m, affected, s);
    var x :| (x == c || x in Reach(d, c)) && !KidsStored(d, x);
    StoredAfterMark(data, m + {c}, s, x);
    assert x in Reach(data, p);
  }

  lemma VisitDone(data: State, p: Bytes, m: set<Bytes>, affected: seq<Bytes>)
    requires Visited(data, p, |Kids(data.Keys, p)|, m, affected)
    ensures m == Reach(data, p) && !Dangling(data, p)
    ensures NoRepeats(affected) && Elements(affected) == m
  {
    hide Kids;
    ProgressDone(Derived(data.Keys), White(data), p, m);
    assert KidsStored(data, p);
  }

  /** Paints the UNSPENT descendants of parent. It fails exactly when some vertex it looks at lists
      a child without a token; otherwise it paints the tokens that a path of UNSPENT tokens leads
      to, and returns each of them once. The relation may be cyclic. */
  method Cascade(store: Store, parent: Bytes, status: TokenStatus)
    returns (affected: seq<Bytes>, failed: bool, ghost painted: set<Bytes>)
    requires status != Unspent && WellKeyed(store.data)
    modifies store`data
    ensures store.data == Marked(old(store.data), painted, status)
    ensures painted <= Reach(old(store.data), parent)
    ensures failed <==> Dangling(old(store.data), parent)
    ensures !failed ==> painted == Reach(old(store.data), parent)
    ensures !failed ==> NoRepeats(affected) && Elements(affected) == painted
    decreases |White(store.data)|
  {
    hide Kids, Marked, SplitFrom, Key, Scan, Reach, White, Dangling, Visited, WellKeyed, DeriveDir, Elements, NoRepeats;
    ghost var data := store.data;
    ghost var kids := Kids(data.Keys, parent);
    affected := [];
    painted := {};
    failed := false;
    var children := store.IteratePrefix(DeriveDir(parent));
    KidCount(data, parent, children);
    VisitStart(data, parent, status);
    var i := 0;
    while i < |children|
      invariant 0 <= i <= |children| == |kids|
      invariant store.data == Marked(data, painted, status)
      invariant Visited(data, parent, i, painted, affected)
    {
      var parts := SplitPath(children[i].key);
      KidAt(data, parent, children, i);
      if |parts| == 0 {
        assert false;
        i := i + 1;
        continue;
      }
      var childId := parts[|parts| - 1];
      assert childId == kids[i];
      var raw := store.Get(UtxoKey(childId));
      if raw.None? || !raw.value.TokenV? {
        DanglingHere(data, parent, i, painted, affected, status);
        return [], true, painted;
      }
      var u := raw.value.token;
      if u.status == Unspent {
        u := u.(status := status);
        MarkOneMore(data, painted, childId, status);
        NestedBelow(data, parent, i, painted, affected, status);
        store.Set(UtxoKey(u.id), TokenV(u));
        var nested, nestedFailed;
        ghost var below;
        nested, nestedFailed, below := Cascade(store, childId, status);
        MarkedTwice(data, painted + {childId}, below, status);
        if nestedFailed {
          DanglingBelow(data, parent, i, painted, affected, status);
          return [], true, painted + {childId} + below;
        }
        VisitNested(data, parent, i, painted, affected, status, nested);
        affected := affected + [childId] + nested;
        painted := painted + {childId} + below;
      } else {
        VisitSkip(data, parent, i, painted, affected, status);
      }
      i := i + 1;
    }
    VisitDone(data, parent, painted, affected);
  }

  lemma DanglingHere(data: State, p: Bytes, i: nat, m: set<Bytes>, affected: seq<Bytes>, s: TokenStatus)
    requires Visited(data, p, i, m, affected) && i < |Kids(data.Keys, p)| && !IsToken(Marked(data, m, s), Kids(data.Keys, p)[i])
    ensures Dangling(data, p) && m <= Reach(data, p)
  {
    hide Kids, Marked;
    MarkedToken(data, m, s, Kids(data.Keys, p)[i]);
    assert !KidsStored(data, p);
  }

  /** The state and the white set just after one more token was painted and saved. */
  lemma MarkOneMore(data: State, m: set<Bytes>, c: Bytes, s: TokenStatus)
    requires s != Unspent && WellKeyed(data)
    requires IsWhite(Marked(data, m, s), c)
    ensures c in White(data) - m
    ensures TokenAt(Marked(data, m, s), c).id == c
    ensures Marked(data, m, s)[UtxoKey(c) := TokenV(TokenAt(Marked(data, m, s), c).(status := s))]
      == Marked(data, m + {c}, s)
    ensures WellKeyed(Marked(data, m + {c}, s))
    ensures White(Marked(data, m + {c}, s)) == White(data) - (m + {c})
    ensures |White(Marked(data, m + {c}, s))| < |White(data)|
  {
    MarkedWellKeyed(data, m, s);
    MarkedWellKeyed(data, m + {c}, s);
    WhiteMarked(data, m, s);
    WhiteMarked(data, m + {c}, s);
    WhiteIff(Marked(data, m, s), c);
    SaveMarks(Marked(data, m, s), c, s);
    MarkedTwice(data, m, {c}, s);
    SmallerSet(White(data) - (m + {c}), White(data));
  }

  lemma SmallerSet<T>(a: set<T>, b: set<T>)
    requires a < b
    ensures |a| < |b|
  {
    assert b == a + (b - a);
    assert |b| == |a| + |b - a|;
  }
}
