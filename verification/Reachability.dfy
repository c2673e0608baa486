/** Depth-first painting of a directed graph, over an arbitrary graph g given by child lists and a
    set w of white vertices that may be entered. */
module Reachability {

  type Graph<!V> = V -> seq<V>

  /** path leads from p along edges of g through vertices of w. */
  ghost predicate WhitePath<V>(g: Graph<V>, w: set<V>, p: V, path: seq<V>)
    decreases |path|
  {
    path == [] || (path[0] in g(p) && path[0] in w && WhitePath(g, w, path[0], path[1..]))
  }

  ghost predicate Reaches<V(!new)>(g: Graph<V>, w: set<V>, p: V, x: V) {
    exists path :: path != [] && path[|path| - 1] == x && WhitePath(g, w, p, path)
  }

  ghost function ReachSet<V(!new)>(g: Graph<V>, w: set<V>, p: V): set<V> {
    set x | x in w && Reaches(g, w, p, x)
  }

  ghost predicate Closed<V>(g: Graph<V>, w: set<V>, m: set<V>) {
    forall x, c :: x in m && c in g(x) && c in w ==> c in m
  }

  ghost predicate KidsIn<V>(g: Graph<V>, w: set<V>, p: V, m: set<V>) {
    forall c :: c in g(p) && c in w ==> c in m
  }

  lemma {:induction false} PathStaysInside<V>(g: Graph<V>, w: set<V>, p: V, path: seq<V>, m: set<V>)
    requires path != [] && WhitePath(g, w, p, path)
    requires KidsIn(g, w, p, m) && Closed(g, w, m)
    ensures path[|path| - 1] in m
    decreases |path|
  {
    assert path[0] in m;
    if |path| > 1 {
      PathStaysInside(g, w, path[0], path[1..], m);
    }
  }

  lemma ReachStep<V(!new)>(g: Graph<V>, w: set<V>, p: V, c: V)
    requires c in g(p) && c in w
    ensures Reaches(g, w, p, c)
  {
    assert WhitePath(g, w, c, []);
    assert [c][1..] == [];
    assert WhitePath(g, w, p, [c]);
  }

  lemma ReachPrepend<V(!new)>(g: Graph<V>, w: set<V>, p: V, c: V, x: V)
    requires c in g(p) && c in w && Reaches(g, w, c, x)
    ensures Reaches(g, w, p, x)
  {
    var path :| path != [] && path[|path| - 1] == x && WhitePath(g, w, c, path);
    assert ([c] + path)[1..] == path;
    assert WhitePath(g, w, p, [c] + path);
    assert ([c] + path)[|path|] == x;
  }

  lemma {:induction false} ReachExtend<V(!new)>(g: Graph<V>, w: set<V>, p: V, path: seq<V>, c: V)
    requires path != [] && WhitePath(g, w, p, path)
    requires c in g(path[|path| - 1]) && c in w
    ensures Reaches(g, w, p, c)
    decreases |path|
  {
    if |path| == 1 {
      ReachStep(g, w, path[0], c);
    } else {
      ReachExtend(g, w, path[0], path[1..], c);
    }
    ReachPrepend(g, w, p, path[0], c);
  }

  lemma {:induction false} PathMonotone<V>(g: Graph<V>, w: set<V>, v: set<V>, p: V, path: seq<V>)
    requires w <= v && WhitePath(g, w, p, path)
    ensures WhitePath(g, v, p, path)
    decreases |path|
  {
    if path != [] {
      PathMonotone(g, w, v, path[0], path[1..]);
    }
  }

  lemma ReachMonotone<V(!new)>(g: Graph<V>, w: set<V>, v: set<V>, p: V)
    requires w <= v
    ensures ReachSet(g, w, p) <= ReachSet(g, v, p)
  {
    forall x | x in ReachSet(g, w, p) ensures x in ReachSet(g, v, p) {
      var path :| path != [] && path[|path| - 1] == x && WhitePath(g, w, p, path);
      PathMonotone(g, w, v, p, path);
    }
  }

  lemma ReachIsClosed<V(!new)>(g: Graph<V>, w: set<V>, p: V)
    ensures Closed(g, w, ReachSet(g, w, p))
    ensures KidsIn(g, w, p, ReachSet(g, w, p))
  {
    forall x, c | x in ReachSet(g, w, p) && c in g(x) && c in w ensures c in ReachSet(g, w, p) {
      var path :| path != [] && path[|path| - 1] == x && WhitePath(g, w, p, path);
      ReachExtend(g, w, p, path, c);
    }
    forall c | c in g(p) && c in w ensures c in ReachSet(g, w, p) {
      ReachStep(g, w, p, c);
    }
  }

  /** The reachable set lies inside every closed set that holds p's white children. */
  lemma ReachIsLeast<V(!new)>(g: Graph<V>, w: set<V>, p: V, m: set<V>)
    requires Closed(g, w, m) && KidsIn(g, w, p, m)
    ensures ReachSet(g, w, p) <= m
  {
    forall x | x in ReachSet(g, w, p) ensures x in m {
      var path :| path != [] && path[|path| - 1] == x && WhitePath(g, w, p, path);
      PathStaysInside(g, w, p, path, m);
    }
  }

  /** What lies below a child lies below the parent. */
  lemma ReachBelow<V(!new)>(g: Graph<V>, w: set<V>, p: V, c: V)
    requires c in g(p) && c in w
    ensures {c} + ReachSet(g, w, c) <= ReachSet(g, w, p)
  {
    ReachStep(g, w, p, c);
    forall x | x in ReachSet(g, w, c) ensures x in ReachSet(g, w, p) {
      ReachPrepend(g, w, p, c, x);
    }
  }

  /** Painting p itself first does not change what is painted together with p. */
  lemma ReachWithoutSelf<V(!new)>(g: Graph<V>, w: set<V>, p: V)
    ensures {p} + ReachSet(g, w - {p}, p) == {p} + ReachSet(g, w, p)
  {
    ReachMonotone(g, w - {p}, w, p);
    ReachIsClosed(g, w - {p}, p);
    ReachIsLeast(g, w, p, {p} + ReachSet(g, w - {p}, p));
  }

  /** What is known of a depth-first visit of p once its first i children are dealt with: the
      vertices of m are painted. */
  ghost predicate Progress<V(!new)>(g: Graph<V>, w: set<V>, p: V, i: nat, m: set<V>) {
    && i <= |g(p)|
    && m <= ReachSet(g, w, p)
    && Closed(g, w, m)
    && (forall j :: 0 <= j < i ==> g(p)[j] in w ==> g(p)[j] in m)
  }

  /** Visiting the next child, white and unpainted, with the remaining white vertices. */
  lemma NestedProgress<V(!new)>(g: Graph<V>, w: set<V>, p: V, i: nat, m: set<V>, c: V)
    requires i < |g(p)| && c == g(p)[i] && Progress(g, w, p, i, m) && c in w - m
    ensures ReachSet(g, w - (m + {c}), c) !! m + {c}
    ensures Progress(g, w, p, i + 1, m + {c} + ReachSet(g, w - (m + {c}), c))
  {
    var n := ReachSet(g, w - (m + {c}), c);
    ReachIsClosed(g, w - (m + {c}), c);
    ReachMonotone(g, w - (m + {c}), w, c);
    ReachBelow(g, w, p, c);
  }

  lemma ProgressDone<V(!new)>(g: Graph<V>, w: set<V>, p: V, m: set<V>)
    requires Progress(g, w, p, |g(p)|, m)
    ensures m == ReachSet(g, w, p)
  {
    ReachIsLeast(g, w, p, m);
  }

  // ----- painting from several sources, one after the other

  ghost function ReachFrom<V(!new)>(g: Graph<V>, w: set<V>, sources: set<V>): set<V> {
    sources + set x | x in w && exists d :: d in sources && x in ReachSet(g, w, d)
  }

  /** Visiting one more source, painted before or not, keeps the painted set closed. */
  lemma PaintFrom<V(!new)>(g: Graph<V>, w: set<V>, m: set<V>, d: V)
    requires Closed(g, w, m)
    ensures Closed(g, w, m + {d} + ReachSet(g, w - (m + {d}), d))
    ensures ReachSet(g, w - (m + {d}), d) <= ReachSet(g, w, d)
  {
    ReachIsClosed(g, w - (m + {d}), d);
    ReachMonotone(g, w - (m + {d}), w, d);
  }

  lemma ClosedHoldsReachFrom<V(!new)>(g: Graph<V>, w: set<V>, sources: set<V>, m: set<V>)
    requires Closed(g, w, m) && sources <= m
    ensures ReachFrom(g, w, sources) <= m
  {
    forall d | d in sources ensures ReachSet(g, w, d) <= m {
      ReachIsLeast(g, w, d, m);
    }
  }

  // ----- graphs that agree everywhere

  lemma {:induction false} SamePath<V(!new)>(g: Graph<V>, h: Graph<V>, w: set<V>, p: V, path: seq<V>)
    requires forall x :: g(x) == h(x)
    ensures WhitePath(g, w, p, path) <==> WhitePath(h, w, p, path)
    decreases |path|
  {
    if path != [] {
      SamePath(g, h, w, path[0], path[1..]);
    }
  }

  lemma SameReachFrom<V(!new)>(g: Graph<V>, h: Graph<V>, w: set<V>, sources: set<V>)
    requires forall x :: g(x) == h(x)
    ensures ReachFrom(g, w, sources) == ReachFrom(h, w, sources)
  {
    forall d ensures ReachSet(g, w, d) == ReachSet(h, w, d) {
      forall path ensures WhitePath(g, w, d, path) <==> WhitePath(h, w, d, path) {
        SamePath(g, h, w, d, path);
      }
    }
  }
}
