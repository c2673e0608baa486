/** Directed multigraphs given by edge lists: counting in-edges, cycles and topological orders. */
module DagOrder {
  import opened ByteStrings
  import opened Records

  predicate HasEdge(edges: seq<Edge>, a: Bytes, b: Bytes) {
    exists i :: 0 <= i < |edges| && edges[i].from == a && edges[i].to == b
  }

  /** The in-edges of a vertex, parallel edges counted each, from outside a set of vertices. */
  ghost function CountInto(edges: seq<Edge>, to: Bytes, removed: set<Bytes>): nat {
    if edges == [] then 0
    else
      var last := edges[|edges| - 1];
      CountInto(edges[..|edges| - 1], to, removed) + (if last.to == to && last.from !in removed then 1 else 0)
  }

  /** The heads of the edges out of a vertex, in edge order. */
  ghost function Succs(edges: seq<Edge>, from: Bytes): seq<Bytes> {
    if edges == [] then []
    else
      var last := edges[|edges| - 1];
      Succs(edges[..|edges| - 1], from) + (if last.from == from then [last.to] else [])
  }

  lemma {:induction false} CountWithout(edges: seq<Edge>, to: Bytes, removed: set<Bytes>, c: Bytes)
    requires c !in removed
    ensures CountInto(edges, to, removed) == CountInto(edges, to, removed + {c}) + multiset(Succs(edges, c))[to]
  {
    if edges != [] {
      CountWithout(edges[..|edges| - 1], to, removed, c);
    }
  }

  lemma {:induction false} CountPositive(edges: seq<Edge>, to: Bytes, removed: set<Bytes>)
    ensures CountInto(edges, to, removed) > 0 <==>
      exists i :: 0 <= i < |edges| && edges[i].to == to && edges[i].from !in removed
  {
    if edges != [] {
      var rest := edges[..|edges| - 1];
      CountPositive(rest, to, removed);
      if CountInto(edges, to, removed) > 0 {
        if CountInto(rest, to, removed) > 0 {
          var i :| 0 <= i < |rest| && rest[i].to == to && rest[i].from !in removed;
          assert edges[i] == rest[i];
        }
      }
      forall i | 0 <= i < |edges| && edges[i].to == to && edges[i].from !in removed
        ensures CountInto(edges, to, removed) > 0
      {
        assert i < |rest| ==> rest[i] == edges[i];
      }
    }
  }

  lemma {:induction false} SuccsAreHeads(edges: seq<Edge>, from: Bytes, x: Bytes)
    ensures x in Succs(edges, from) <==> HasEdge(edges, from, x)
  {
    if edges != [] {
      var rest := edges[..|edges| - 1];
      SuccsAreHeads(rest, from, x);
      if HasEdge(rest, from, x) {
        var i :| 0 <= i < |rest| && rest[i].from == from && rest[i].to == x;
        assert edges[i] == rest[i];
      }
      if HasEdge(edges, from, x) {
        var i :| 0 <= i < |edges| && edges[i].from == from && edges[i].to == x;
        assert i < |rest| ==> rest[i] == edges[i];
      }
    }
  }

  // ----- cycles

  ghost predicate IsPath(edges: seq<Edge>, path: seq<Bytes>) {
    forall i :: 0 <= i < |path| - 1 ==> HasEdge(edges, path[i], path[i + 1])
  }

  ghost predicate IsCycle(edges: seq<Edge>, path: seq<Bytes>) {
    path != [] && IsPath(edges, path) && HasEdge(edges, path[|path| - 1], path[0])
  }

  ghost predicate Acyclic(edges: seq<Edge>) {
    forall path :: !IsCycle(edges, path)
  }

  ghost predicate HasPredecessorIn(edges: seq<Edge>, u: set<Bytes>, x: Bytes) {
    exists y :: y in u && HasEdge(edges, y, x)
  }

  /** Every vertex of u has a predecessor in u. */
  ghost predicate NoSource(edges: seq<Edge>, u: set<Bytes>) {
    forall x {:trigger HasPredecessorIn(edges, u, x)} :: x in u ==> HasPredecessorIn(edges, u, x)
  }

  lemma CloseCycle(edges: seq<Edge>, path: seq<Bytes>, j: nat)
    requires IsPath(edges, path) && j < |path| && HasEdge(edges, path[j], path[0])
    ensures IsCycle(edges, path[..j + 1])
  {
  }

  lemma StepBack(edges: seq<Edge>, u: set<Bytes>, path: seq<Bytes>, y: Bytes)
    requires path != [] && NoRepeats(path) && Elements(path) <= u && IsPath(edges, path)
    requires y in u && y !in path && HasEdge(edges, y, path[0])
    ensures NoRepeats([y] + path) && Elements([y] + path) <= u && IsPath(edges, [y] + path)
    ensures |path| < |u|
  {
    var longer := [y] + path;
    forall i | 0 <= i < |longer| - 1 ensures HasEdge(edges, longer[i], longer[i + 1]) {
      if i > 0 {
        assert HasEdge(edges, path[i - 1], path[i]);
      }
    }
    assert Elements(longer) == {y} + Elements(path);
    NoRepeatsSize(longer);
    SubsetSize(Elements(longer), u);
  }

  /** Walking backwards inside a finite set without a source must come back to a visited vertex. */
  lemma {:induction false} BackwardWalk(edges: seq<Edge>, u: set<Bytes>, path: seq<Bytes>)
    requires NoSource(edges, u) && path != [] && NoRepeats(path) && Elements(path) <= u && IsPath(edges, path)
    ensures !Acyclic(edges)
    decreases |u| - |path|
  {
    hide HasEdge, NoRepeats, IsPath;
    assert path[0] in Elements(path);
    assert HasPredecessorIn(edges, u, path[0]);
    var y :| y in u && HasEdge(edges, y, path[0]);
    if y in path {
      var j :| 0 <= j < |path| && path[j] == y;
      CloseCycle(edges, path, j);
    } else {
      StepBack(edges, u, path, y);
      BackwardWalk(edges, u, [y] + path);
    }
  }

  lemma NoSourceHasCycle(edges: seq<Edge>, u: set<Bytes>)
    requires u != {} && NoSource(edges, u)
    ensures !Acyclic(edges)
  {
    hide NoSource;
    var x :| x in u;
    assert Elements([x]) == {x};
    BackwardWalk(edges, u, [x]);
  }

  // ----- topological orders

  ghost predicate Before(order: seq<Bytes>, x: Bytes, y: Bytes) {
    exists a, b :: 0 <= a < b < |order| && order[a] == x && order[b] == y
  }

  ghost predicate Topological(edges: seq<Edge>, order: seq<Bytes>) {
    NoRepeats(order) && forall i :: 0 <= i < |edges| ==> Before(order, edges[i].from, edges[i].to)
  }

  ghost function Position(order: seq<Bytes>, x: Bytes): (p: nat)
    requires x in order
    ensures p < |order| && order[p] == x
  {
    var p :| 0 <= p < |order| && order[p] == x;
    p
  }

  lemma EdgeClimbs(edges: seq<Edge>, order: seq<Bytes>, x: Bytes, y: Bytes)
    requires Topological(edges, order) && HasEdge(edges, x, y)
    ensures x in order && y in order && Position(order, x) < Position(order, y)
  {
  }

  lemma {:induction false} PathClimbs(edges: seq<Edge>, order: seq<Bytes>, path: seq<Bytes>, k: nat)
    requires Topological(edges, order) && IsPath(edges, path) && 1 < |path| && k < |path|
    ensures path[0] in order && path[k] in order && Position(order, path[0]) + k <= Position(order, path[k])
  {
    if k == 0 {
      assert HasEdge(edges, path[0], path[0 + 1]);
      EdgeClimbs(edges, order, path[0], path[1]);
    } else {
      PathClimbs(edges, order, path, k - 1);
      assert HasEdge(edges, path[k - 1], path[k - 1 + 1]);
      EdgeClimbs(edges, order, path[k - 1], path[k]);
    }
  }

  lemma TopologicalIsAcyclic(edges: seq<Edge>, order: seq<Bytes>)
    requires Topological(edges, order)
    ensures Acyclic(edges)
  {
    forall path | IsCycle(edges, path) ensures false {
      EdgeClimbs(edges, order, path[|path| - 1], path[0]);
      if |path| > 1 {
        PathClimbs(edges, order, path, |path| - 1);
      }
    }
  }
}
