/** Validation of a submitted task graph: shape checks, then Kahn's algorithm. */
module DagValidate {
  import opened ByteStrings
  import opened Sorting
  import opened Records
  import opened DagOrder

  datatype DagCheck =
    | DagOk | TooFewNodes | EmptyNodeId | DuplicateNodeId(id: Bytes) | UnknownFrom(id: Bytes)
    | UnknownTo(id: Bytes) | SelfLoop(id: Bytes) | CycleDetected | ZeroTimeout

  ghost function NodeIds(nodes: seq<DagNode>): set<Bytes> {
    set i | 0 <= i < |nodes| :: nodes[i].id
  }

  lemma NodeIdsAppend(nodes: seq<DagNode>, n: DagNode)
    ensures NodeIds(nodes + [n]) == NodeIds(nodes) + {n.id}
  {
    var all := nodes + [n];
    forall x | x in NodeIds(nodes) + {n.id} ensures x in NodeIds(all) {
      if x in NodeIds(nodes) {
        var i :| 0 <= i < |nodes| && nodes[i].id == x;
        assert all[i].id == x;
      } else {
        assert all[|nodes|].id == x;
      }
    }
  }

  lemma IdsOkAppend(nodes: seq<DagNode>, n: DagNode)
    requires IdsOk(nodes) && n.id != [] && n.id !in NodeIds(nodes)
    ensures IdsOk(nodes + [n])
  {
  }

  ghost predicate IdsOk(nodes: seq<DagNode>) {
    && (forall i :: 0 <= i < |nodes| ==> nodes[i].id != [])
    && (forall i, j :: 0 <= i < j < |nodes| ==> nodes[i].id != nodes[j].id)
  }

  ghost predicate EdgesOk(ids: set<Bytes>, edges: seq<Edge>) {
    forall i :: 0 <= i < |edges| ==> edges[i].from in ids && edges[i].to in ids && edges[i].from != edges[i].to
  }

  ghost predicate ValidDag(dag: Dag) {
    && |dag.nodes| >= 2 && IdsOk(dag.nodes) && EdgesOk(NodeIds(dag.nodes), dag.edges)
    && Acyclic(dag.edges) && dag.timeoutSec > 0
  }

  /** What each rejection tells about the graph. */
  ghost predicate Explains(dag: Dag, e: DagCheck) {
    match e
    case DagOk => ValidDag(dag)
    case TooFewNodes => |dag.nodes| < 2
    case EmptyNodeId => exists i :: 0 <= i < |dag.nodes| && dag.nodes[i].id == []
    case DuplicateNodeId(id) => exists i, j :: 0 <= i < j < |dag.nodes| && dag.nodes[i].id == dag.nodes[j].id == id
    case UnknownFrom(id) => id !in NodeIds(dag.nodes) && exists i :: 0 <= i < |dag.edges| && dag.edges[i].from == id
    case UnknownTo(id) => id !in NodeIds(dag.nodes) && exists i :: 0 <= i < |dag.edges| && dag.edges[i].to == id
    case SelfLoop(id) => HasEdge(dag.edges, id, id)
    case CycleDetected => !Acyclic(dag.edges)
    case ZeroTimeout => dag.timeoutSec == 0
  }

  /** Each rejection contradicts validity. */
  lemma RejectionIsInvalid(dag: Dag, e: DagCheck)
    requires Explains(dag, e) && e != DagOk
    ensures !ValidDag(dag)
  {
  }

  // ----- the state of Kahn's algorithm

  /** indeg counts the in-edges from vertices outside gone, plus the heads still to be decremented. */
  ghost predicate Degrees(ids: set<Bytes>, edges: seq<Edge>, indeg: map<Bytes, int>, gone: set<Bytes>, extra: multiset<Bytes>) {
    indeg.Keys == ids && forall n :: n in ids ==> indeg[n] == CountInto(edges, n, gone) + extra[n]
  }

  /** q holds the vertices of degree zero that are not yet in the order. */
  ghost predicate Frontier(ids: set<Bytes>, indeg: map<Bytes, int>, q: seq<Bytes>, order: seq<Bytes>)
    requires indeg.Keys == ids
  {
    && NoRepeats(q) && NoRepeats(order)
    && (forall n :: n in q <==> n in ids && n !in order && indeg[n] == 0)
    && (forall n :: n in order ==> n in ids && indeg[n] == 0)
  }

  /** Every in-edge of an ordered vertex comes from an earlier one. */
  ghost predicate Ordered(edges: seq<Edge>, order: seq<Bytes>) {
    forall i, e :: 0 <= i < |order| && 0 <= e < |edges| && edges[e].to == order[i] ==> edges[e].from in order[..i]
  }

  lemma PopFront(ids: set<Bytes>, edges: seq<Edge>, indeg: map<Bytes, int>, q: seq<Bytes>, order: seq<Bytes>)
    requires Degrees(ids, edges, indeg, Elements(order), multiset{}) && Frontier(ids, indeg, q, order)
    requires Ordered(edges, order) && q != []
    ensures Degrees(ids, edges, indeg, Elements(order + [q[0]]), multiset(Succs(edges, q[0])))
    ensures Frontier(ids, indeg, q[1..], order + [q[0]])
    ensures Ordered(edges, order + [q[0]])
  {
    var c := q[0];
    assert c in q;
    assert Elements(order + [c]) == Elements(order) + {c};
    forall n | n in ids ensures indeg[n] == CountInto(edges, n, Elements(order + [c])) + multiset(Succs(edges, c))[n] {
      CountWithout(edges, n, Elements(order), c);
    }
    PopFrontier(ids, indeg, q, order);
    CountPositive(edges, c, Elements(order));
    var longer := order + [c];
    forall i, e | 0 <= i < |longer| && 0 <= e < |edges| && edges[e].to == longer[i] ensures edges[e].from in longer[..i] {
      if i < |order| {
        assert longer[..i] == order[..i];
      } else {
        assert longer[..i] == order;
        assert edges[e].from in Elements(order);
      }
    }
  }

  lemma PopFrontier(ids: set<Bytes>, indeg: map<Bytes, int>, q: seq<Bytes>, order: seq<Bytes>)
    requires indeg.Keys == ids && Frontier(ids, indeg, q, order) && q != []
    ensures Frontier(ids, indeg, q[1..], order + [q[0]])
  {
    var c := q[0];
    assert q == [c] + q[1..];
    assert c in q;
    forall n ensures n in q[1..] <==> n in q && n != c {
      if n in q && n != c {
        var i :| 0 <= i < |q| && q[i] == n;
        assert q[1..][i - 1] == n;
      }
    }
  }

  lemma Decrement(ids: set<Bytes>, edges: seq<Edge>, indeg: map<Bytes, int>, q: seq<Bytes>, order: seq<Bytes>,
                  extra: multiset<Bytes>, n: Bytes)
    requires Degrees(ids, edges, indeg, Elements(order), extra) && Frontier(ids, indeg, q, order)
    requires n in extra && n in ids
    ensures var lower := indeg[n := indeg[n] - 1];
      && Degrees(ids, edges, lower, Elements(order), extra - multiset{n})
      && Frontier(ids, lower, if lower[n] == 0 then q + [n] else q, order)
  {
  }

  lemma Rearranged(ids: set<Bytes>, indeg: map<Bytes, int>, q: seq<Bytes>, r: seq<Bytes>, order: seq<Bytes>)
    requires indeg.Keys == ids && Frontier(ids, indeg, q, order) && multiset(q) == multiset(r)
    ensures Frontier(ids, indeg, r, order)
  {
    PermutedNoRepeats(q, r);
    MultisetElements(q, r);
  }

  /** All vertices ordered: the order is topological. */
  lemma AllOrdered(ids: set<Bytes>, edges: seq<Edge>, order: seq<Bytes>)
    requires NoRepeats(order) && Elements(order) == ids && Ordered(edges, order) && EdgesOk(ids, edges)
    ensures Topological(edges, order)
  {
  }

  /** The queue ran empty before all vertices were ordered: the rest has no source. */
  lemma StuckHasCycle(ids: set<Bytes>, edges: seq<Edge>, indeg: map<Bytes, int>, order: seq<Bytes>)
    requires Degrees(ids, edges, indeg, Elements(order), multiset{}) && Frontier(ids, indeg, [], order)
    requires EdgesOk(ids, edges) && Elements(order) != ids
    ensures !Acyclic(edges)
  {
    var u := ids - Elements(order);
    assert Elements(order) <= ids;
    ProperDifference(Elements(order), ids);
    forall x | x in u ensures HasPredecessorIn(edges, u, x) {
      assert x !in order && indeg[x] != 0;
      CountPositive(edges, x, Elements(order));
      var i :| 0 <= i < |edges| && edges[i].to == x && edges[i].from !in Elements(order);
      assert edges[i].from in u && HasEdge(edges, edges[i].from, x);
    }
    NoSourceHasCycle(edges, u);
  }

  // ----- the algorithm

  method CheckNodes(dag: Dag) returns (e: DagCheck, nodeSet: set<Bytes>)
    ensures e.DagOk? ==> IdsOk(dag.nodes) && nodeSet == NodeIds(dag.nodes) && |nodeSet| == |dag.nodes|
    ensures !e.DagOk? ==> Explains(dag, e)
  {
    nodeSet := {};
    var i := 0;
    while i < |dag.nodes|
      invariant 0 <= i <= |dag.nodes|
      invariant IdsOk(dag.nodes[..i])
      invariant nodeSet == NodeIds(dag.nodes[..i])
      invariant |nodeSet| == i
    {
      var id := dag.nodes[i].id;
      if id == [] {
        return EmptyNodeId, nodeSet;
      }
      if id in nodeSet {
        return DuplicateNodeId(id), nodeSet;
      }
      assert dag.nodes[..i + 1] == dag.nodes[..i] + [dag.nodes[i]];
      NodeIdsAppend(dag.nodes[..i], dag.nodes[i]);
      IdsOkAppend(dag.nodes[..i], dag.nodes[i]);
      nodeSet := nodeSet + {id};
      i := i + 1;
    }
    assert dag.nodes[..i] == dag.nodes;
    e := DagOk;
  }

  ghost predicate Adjacent(edges: seq<Edge>, adj: map<Bytes, seq<Bytes>>) {
    forall n :: (if n in adj then adj[n] else []) == Succs(edges, n)
  }

  lemma EdgeCounted(ids: set<Bytes>, edges: seq<Edge>, indeg: map<Bytes, int>, adj: map<Bytes, seq<Bytes>>, e: Edge)
    requires Degrees(ids, edges, indeg, {}, multiset{}) && Adjacent(edges, adj) && EdgesOk(ids, edges)
    requires e.from in ids && e.to in ids && e.from != e.to
    ensures EdgesOk(ids, edges + [e])
    ensures Degrees(ids, edges + [e], indeg[e.to := indeg[e.to] + 1], {}, multiset{})
    ensures Adjacent(edges + [e], adj[e.from := (if e.from in adj then adj[e.from] else []) + [e.to]])
  {
    assert (edges + [e])[..|edges|] == edges;
    assert indeg[e.to := indeg[e.to] + 1].Keys == ids;
  }

  lemma NoneCounted(ids: set<Bytes>)
    ensures Degrees(ids, [], map n | n in ids :: 0, {}, multiset{}) && Adjacent([], map[])
  {
  }

  method CountEdges(dag: Dag, nodeSet: set<Bytes>) returns (e: DagCheck, indeg: map<Bytes, int>, adj: map<Bytes, seq<Bytes>>)
    requires nodeSet == NodeIds(dag.nodes)
    ensures e.DagOk? ==> EdgesOk(nodeSet, dag.edges)
    ensures e.DagOk? ==> Degrees(nodeSet, dag.edges, indeg, {}, multiset{})
    ensures e.DagOk? ==> Adjacent(dag.edges, adj)
    ensures !e.DagOk? ==> Explains(dag, e)
  {
    hide Degrees, Adjacent;
    indeg := map n | n in nodeSet :: 0;
    adj := map[];
    NoneCounted(nodeSet);
    assert dag.edges[..0] == [];
    var i := 0;
    while i < |dag.edges|
      invariant 0 <= i <= |dag.edges|
      invariant EdgesOk(nodeSet, dag.edges[..i])
      invariant Degrees(nodeSet, dag.edges[..i], indeg, {}, multiset{})
      invariant Adjacent(dag.edges[..i], adj)
    {
      var ed := dag.edges[i];
      assert dag.edges[..i + 1] == dag.edges[..i] + [ed];
      if ed.from !in nodeSet {
        return UnknownFrom(ed.from), indeg, adj;
      }
      if ed.to !in nodeSet {
        return UnknownTo(ed.to), indeg, adj;
      }
      if ed.from == ed.to {
        assert HasEdge(dag.edges, ed.from, ed.from);
        return SelfLoop(ed.from), indeg, adj;
      }
      DegreeKeys(nodeSet, dag.edges[..i], indeg, {}, multiset{});
      EdgeCounted(nodeSet, dag.edges[..i], indeg, adj, ed);
      indeg := indeg[ed.to := indeg[ed.to] + 1];
      adj := adj[ed.from := (if ed.from in adj then adj[ed.from] else []) + [ed.to]];
      i := i + 1;
    }
    assert dag.edges[..i] == dag.edges;
    e := DagOk;
  }

  /** The vertices of degree zero, in an arbitrary order, then sorted. */
  method Sources(ids: set<Bytes>, indeg: map<Bytes, int>) returns (q: seq<Bytes>)
    requires indeg.Keys == ids
    ensures Frontier(ids, indeg, q, [])
  {
    q := [];
    var rest := ids;
    while rest != {}
      invariant rest <= ids && NoRepeats(q)
      invariant forall n :: n in q <==> n in ids && n !in rest && indeg[n] == 0
      decreases |rest|
    {
      var n :| n in rest;
      rest := rest - {n};
      if indeg[n] == 0 {
        q := q + [n];
      }
    }
    LexStrictWeak();
    var sorted := Sort(q, LexLess);
    Rearranged(ids, indeg, q, sorted, []);
    q := sorted;
  }

  /** Takes the heads of curr's edges off the degrees, queueing each vertex whose degree drops to 0. */
  method Release(ids: set<Bytes>, ghost edges: seq<Edge>, indeg0: map<Bytes, int>, q0: seq<Bytes>,
                 ghost order: seq<Bytes>, heads: seq<Bytes>)
    returns (indeg: map<Bytes, int>, q: seq<Bytes>)
    requires Degrees(ids, edges, indeg0, Elements(order), multiset(heads)) && Frontier(ids, indeg0, q0, order)
    requires forall x :: x in heads ==> x in ids
    ensures Degrees(ids, edges, indeg, Elements(order), multiset{}) && Frontier(ids, indeg, q, order)
  {
    LexStrictWeak();
    var nexts := Sort(heads, LexLess);
    MultisetElements(nexts, heads);
    indeg, q := indeg0, q0;
    var rest := nexts;
    while |rest| > 0
      invariant Degrees(ids, edges, indeg, Elements(order), multiset(rest))
      invariant Frontier(ids, indeg, q, order)
      invariant forall x :: x in rest ==> x in ids
    {
      hide Degrees, Frontier, StrictWeak, Sorted, LexLess, CountInto;
      var nxt := rest[0];
      FirstOf(rest);
      DegreeKeys(ids, edges, indeg, Elements(order), multiset(rest));
      Decrement(ids, edges, indeg, q, order, multiset(rest), nxt);
      indeg := indeg[nxt := indeg[nxt] - 1];
      rest := rest[1..];
      if indeg[nxt] == 0 {
        q := q + [nxt];
        var sorted := Sort(q, LexLess);
        Rearranged(ids, indeg, q, sorted, order);
        q := sorted;
      }
    }
  }

  lemma FirstOf(s: seq<Bytes>)
    requires s != []
    ensures s[0] in multiset(s) && multiset(s) - multiset{s[0]} == multiset(s[1..])
  {
    assert s == [s[0]] + s[1..];
  }

  lemma DegreeKeys(ids: set<Bytes>, edges: seq<Edge>, indeg: map<Bytes, int>, gone: set<Bytes>, extra: multiset<Bytes>)
    requires Degrees(ids, edges, indeg, gone, extra)
    ensures indeg.Keys == ids
  {
  }

  /** Kahn's loop: how many vertices can be peeled off, and in which order. */
  method Peel(ids: set<Bytes>, ghost edges: seq<Edge>, indeg0: map<Bytes, int>, adj: map<Bytes, seq<Bytes>>)
    returns (visited: nat, ghost order: seq<Bytes>)
    requires EdgesOk(ids, edges) && Degrees(ids, edges, indeg0, {}, multiset{})
    requires Adjacent(edges, adj)
    ensures visited == |order| && NoRepeats(order) && Elements(order) <= ids
    ensures visited == |ids| ==> Topological(edges, order)
    ensures visited != |ids| ==> !Acyclic(edges)
  {
    hide Topological, Acyclic, CountInto, Succs;
    var indeg := indeg0;
    var q := Sources(ids, indeg);
    order := [];
    visited := 0;
    assert Elements(order) == {};
    while |q| > 0
      invariant visited == |order|
      invariant Degrees(ids, edges, indeg, Elements(order), multiset{})
      invariant Frontier(ids, indeg, q, order)
      invariant Ordered(edges, order)
      decreases |ids| - |order|
    {
      var curr := q[0];
      OrderFits(ids, indeg, q, order);
      PopFront(ids, edges, indeg, q, order);
      forall x | x in Succs(edges, curr) ensures x in ids {
        SuccsAreHeads(edges, curr, x);
      }
      q := q[1..];
      visited := visited + 1;
      order := order + [curr];
      indeg, q := Release(ids, edges, indeg, q, order, if curr in adj then adj[curr] else []);
    }
    NoRepeatsSize(order);
    SubsetSize(Elements(order), ids);
    if visited == |ids| {
      AllOrdered(ids, edges, order);
    } else {
      StuckHasCycle(ids, edges, indeg, order);
    }
  }

  lemma OrderFits(ids: set<Bytes>, indeg: map<Bytes, int>, q: seq<Bytes>, order: seq<Bytes>)
    requires indeg.Keys == ids && Frontier(ids, indeg, q, order) && q != []
    ensures |order| < |ids|
  {
    PopFrontier(ids, indeg, q, order);
    NoRepeatsSize(order + [q[0]]);
    SubsetSize(Elements(order + [q[0]]), ids);
  }

  /** Accepts exactly the valid graphs; the verdict does not depend on the order in which the degree
      map is visited. Acceptance comes with a topological order of all nodes. */
  method ValidateDag(dag: Dag) returns (e: DagCheck, ghost order: seq<Bytes>)
    ensures e.DagOk? <==> ValidDag(dag)
    ensures Explains(dag, e)
    ensures e.DagOk? ==> Topological(dag.edges, order) && Elements(order) == NodeIds(dag.nodes)
  {
    order := [];
    if |dag.nodes| < 2 {
      return TooFewNodes, order;
    }
    var check, nodeSet := CheckNodes(dag);
    if check != DagOk {
      RejectionIsInvalid(dag, check);
      return check, order;
    }
    var indeg, adj;
    check, indeg, adj := CountEdges(dag, nodeSet);
    if check != DagOk {
      RejectionIsInvalid(dag, check);
      return check, order;
    }
    var visited;
    visited, order := Peel(nodeSet, dag.edges, indeg, adj);
    if visited != |dag.nodes| {
      return CycleDetected, order;
    }
    TopologicalIsAcyclic(dag.edges, order);
    NoRepeatsSize(order);
    SubsetSize(Elements(order), nodeSet);
    if dag.timeoutSec == 0 {
      return ZeroTimeout, order;
    }
    e := DagOk;
  }
}
