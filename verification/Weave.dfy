/** The task-graph module: handlers, the end-of-block scheduler, and what they do over whole runs. */
module Weave {
  import opened ByteStrings
  import opened Codec
  import opened Keys
  import opened Engine
  import opened Records
  import opened DagOrder
  import opened DagValidate
  import opened ScanMap

  const WEAVE_BASE := 30

  datatype WeaveOp =
    | CreateDag(id: Bytes, rootTask: Bytes, nodes: seq<DagNode>, edges: seq<Edge>, timeoutSec: u64)
    | StartDag(id: Bytes)
    | UpdateNode(id: Bytes, node: Bytes, status: NodeStatus)
    | CancelDag(id: Bytes)
    | SubmitOutput(id: Bytes, node: Bytes, outputRef: Bytes)
    | BadWeavePayload

  function DagKey(id: Bytes): Bytes { Key(WeaveDag, id) }

  predicate IsDagKey(k: Bytes) { HasPrefix(k, Prefix(WeaveDag)) }

  predicate IsDag(data: State, id: Bytes) {
    DagKey(id) in data && data[DagKey(id)].DagV?
  }

  function DagAt(data: State, id: Bytes): Dag
    requires IsDag(data, id)
  {
    data[DagKey(id)].dag
  }

  /** Every stored graph is filed under its id and passes validation. */
  ghost predicate WeaveInv(data: State) {
    forall id :: IsDag(data, id) ==> DagAt(data, id).id == id && ValidDag(DagAt(data, id))
  }

  // ----- one scheduling round

  function TickNode(n: DagNode, now: int): DagNode {
    match n.status
    case NodePending | NodeReady => n.(status := NodeRunning, startedAt := now)
    case NodeRunning => n.(status := NodeCompleted, finishedAt := now)
    case _ => n
  }

  function TickNodes(nodes: seq<DagNode>, now: int): (r: seq<DagNode>)
    ensures |r| == |nodes| && forall i :: 0 <= i < |r| ==> r[i] == TickNode(nodes[i], now)
  {
    seq(|nodes|, i requires 0 <= i < |nodes| => TickNode(nodes[i], now))
  }

  predicate Done(n: DagNode) { n.status == NodeCompleted || n.status == NodeSkipped }

  predicate AllDone(nodes: seq<DagNode>) {
    forall i :: 0 <= i < |nodes| ==> Done(nodes[i])
  }

  function Progressed(d: Dag, now: int): Dag {
    var nodes := TickNodes(d.nodes, now);
    if AllDone(nodes) then d.(nodes := nodes, status := DagCompleted, finishedAt := now) else d.(nodes := nodes)
  }

  /** One stage of a running graph, told on the records: waiting nodes start, running ones complete, all
      others stay; the graph completes exactly when every node was running, completed or skipped. */
  ghost predicate RanOn(a: Dag, b: Dag, now: int) {
    && |b.nodes| == |a.nodes| && b == a.(nodes := b.nodes, status := b.status, finishedAt := b.finishedAt)
    && (forall i :: 0 <= i < |a.nodes| ==> StageOf(a.nodes[i], b.nodes[i], now))
    && (if forall i :: 0 <= i < |a.nodes| ==> a.nodes[i].status in {NodeRunning, NodeCompleted, NodeSkipped}
        then b.status == DagCompleted && b.finishedAt == now
        else b.status == a.status && b.finishedAt == a.finishedAt)
  }

  predicate StageOf(m: DagNode, n: DagNode, now: int) {
    && (m.status in {NodePending, NodeReady} ==> n == m.(status := NodeRunning, startedAt := now))
    && (m.status == NodeRunning ==> n == m.(status := NodeCompleted, finishedAt := now))
    && (m.status !in {NodePending, NodeReady, NodeRunning} ==> n == m)
  }

  lemma ProgressedRanOn(d: Dag, now: int)
    requires d.status == DagRunning
    ensures RanOn(d, Progressed(d, now), now)
  {
    var t := TickNodes(d.nodes, now);
    if AllDone(t) {
      forall i | 0 <= i < |d.nodes| ensures d.nodes[i].status in {NodeRunning, NodeCompleted, NodeSkipped} {
        assert Done(t[i]);
      }
    } else {
      var i :| 0 <= i < |t| && !Done(t[i]);
      assert d.nodes[i].status !in {NodeRunning, NodeCompleted, NodeSkipped};
    }
  }

  /** The record a handler decodes, changes in place and saves. */
  class DagRecord {
    var id: Bytes
    var rootTask: Bytes
    var orchestrator: Bytes
    var nodes: seq<DagNode>
    var edges: seq<Edge>
    var status: DagStatus
    var createdAt: int
    var startedAt: int
    var finishedAt: int
    var timeoutSec: u64

    constructor Decode(d: Dag)
      ensures Value() == d
    {
      id, rootTask, orchestrator := d.id, d.rootTask, d.orchestrator;
      nodes, edges, status := d.nodes, d.edges, d.status;
      createdAt, startedAt, finishedAt, timeoutSec := d.createdAt, d.startedAt, d.finishedAt, d.timeoutSec;
    }

    function Value(): Dag
      reads this
    {
      Dag(id, rootTask, orchestrator, nodes, edges, status, createdAt, startedAt, finishedAt, timeoutSec)
    }

    method Progress(now: int)
      modifies this
      ensures Value() == Progressed(old(Value()), now)
      ensures old(status) == DagRunning ==> RanOn(old(Value()), Value(), now)
    {
      var i := 0;
      while i < |nodes|
        invariant 0 <= i <= |nodes| == |old(nodes)|
        invariant forall j :: 0 <= j < i ==> nodes[j] == TickNode(old(nodes)[j], now)
        invariant forall j :: i <= j < |nodes| ==> nodes[j] == old(nodes)[j]
        invariant Value() == old(Value()).(nodes := nodes)
      {
        var n := nodes[i];
        if n.status == NodePending {
          n := n.(status := NodeReady);
        }
        if n.status == NodeReady {
          n := n.(status := NodeRunning, startedAt := now);
        } else if n.status == NodeRunning {
          n := n.(status := NodeCompleted, finishedAt := now);
        }
        nodes := nodes[i := n];
        i := i + 1;
      }
      assert nodes == TickNodes(old(nodes), now);
      var allDone := true;
      i := 0;
      while i < |nodes|
        invariant 0 <= i <= |nodes|
        invariant allDone ==> forall j :: 0 <= j < i ==> Done(nodes[j])
        invariant !allDone ==> !AllDone(nodes)
      {
        if nodes[i].status != NodeCompleted && nodes[i].status != NodeSkipped {
          assert !Done(nodes[i]);
          allDone := false;
          break;
        }
        i := i + 1;
      }
      if allDone {
        status := DagCompleted;
        finishedAt := now;
      }
      if old(status) == DagRunning {
        ProgressedRanOn(old(Value()), now);
      }
    }
  }

  // ----- transactions

  /** The first node with the given id, changed by f. */
  function UpdateFirst(nodes: seq<DagNode>, id: Bytes, f: DagNode -> DagNode): seq<DagNode> {
    if nodes == [] then []
    else if nodes[0].id == id then [f(nodes[0])] + nodes[1..]
    else [nodes[0]] + UpdateFirst(nodes[1..], id, f)
  }

  function SetStatus(status: NodeStatus, now: int): DagNode -> DagNode {
    (n: DagNode) => n.(status := status, finishedAt := now)
  }

  function SetOutput(outputRef: Bytes, now: int): DagNode -> DagNode {
    (n: DagNode) => n.(outputRef := outputRef, status := NodeCompleted, finishedAt := now)
  }

  function NewDag(ctx: Ctx, sender: Bytes, op: WeaveOp): Dag
    requires op.CreateDag?
  {
    Dag(if op.id == [] then ctx.stamp else op.id, op.rootTask, sender, op.nodes, op.edges,
        DagPending, ctx.now, 0, 0, op.timeoutSec)
  }

  function Started(d: Dag, now: int): Dag {
    d.(status := DagRunning, startedAt := now,
       nodes := seq(|d.nodes|, i requires 0 <= i < |d.nodes| => d.nodes[i].(status := NodePending)))
  }

  ghost function WeaveSpec(data: State, ctx: Ctx, sender: Bytes, op: WeaveOp): (State, Outcome) {
    match op
    case CreateDag(_, _, _, _, _) =>
      var d := NewDag(ctx, sender, op);
      if ValidDag(d) then (data[DagKey(d.id) := DagV(d)], Ok(3000 + 500 * |d.nodes|, [])) else (data, Fail(WEAVE_BASE))
    case StartDag(id) =>
      if !IsDag(data, id) || DagAt(data, id).status != DagPending then (data, Fail(WEAVE_BASE + 1))
      else (data[DagKey(id) := DagV(Started(DagAt(data, id), ctx.now))], Ok(2000, []))
    case UpdateNode(id, node, status) =>
      if !IsDag(data, id) then (data, Fail(WEAVE_BASE + 1))
      else
        var d := DagAt(data, id);
        (data[DagKey(id) := DagV(d.(nodes := UpdateFirst(d.nodes, node, SetStatus(status, ctx.now))))], Ok(1000, []))
    case CancelDag(id) =>
      if !IsDag(data, id) then (data, Fail(WEAVE_BASE + 1))
      else (data[DagKey(id) := DagV(DagAt(data, id).(status := DagCanceled, finishedAt := ctx.now))], Ok(2000, []))
    case SubmitOutput(id, node, outputRef) =>
      if !IsDag(data, id) then (data, Fail(WEAVE_BASE + 1))
      else
        var d := DagAt(data, id);
        (data[DagKey(id) := DagV(d.(nodes := UpdateFirst(d.nodes, node, SetOutput(outputRef, ctx.now))))], Ok(2000, []))
    case BadWeavePayload => (data, Fail(WEAVE_BASE + 1))
  }

  lemma {:induction false} UpdateFirstHit(nodes: seq<DagNode>, id: Bytes, f: DagNode -> DagNode, i: nat)
    requires i < |nodes| && nodes[i].id == id && forall j :: 0 <= j < i ==> nodes[j].id != id
    ensures UpdateFirst(nodes, id, f) == nodes[i := f(nodes[i])]
  {
    if i > 0 {
      UpdateFirstHit(nodes[1..], id, f, i - 1);
    }
  }

  lemma {:induction false} UpdateFirstMiss(nodes: seq<DagNode>, id: Bytes, f: DagNode -> DagNode)
    requires forall j :: 0 <= j < |nodes| ==> nodes[j].id != id
    ensures UpdateFirst(nodes, id, f) == nodes
  {
    if nodes != [] {
      UpdateFirstMiss(nodes[1..], id, f);
    }
  }

  method UpdateFirstNode(nodes0: seq<DagNode>, id: Bytes, f: DagNode -> DagNode) returns (nodes: seq<DagNode>)
    ensures nodes == UpdateFirst(nodes0, id, f)
  {
    nodes := nodes0;
    var i := 0;
    while i < |nodes|
      invariant 0 <= i <= |nodes| && nodes == nodes0
      invariant forall j :: 0 <= j < i ==> nodes[j].id != id
    {
      if nodes[i].id == id {
        UpdateFirstHit(nodes, id, f, i);
        nodes := nodes[i := f(nodes[i])];
        return;
      }
      i := i + 1;
    }
    UpdateFirstMiss(nodes, id, f);
  }

  method ExecuteWeave(store: Store, ctx: Ctx, sender: Bytes, op: WeaveOp) returns (r: Outcome)
    requires WeaveInv(store.data)
    modifies store`data
    ensures (store.data, r) == WeaveSpec(old(store.data), ctx, sender, op)
  {
    hide Prefix, ValidDag;
    match op {
      case CreateDag(_, _, _, _, _) =>
        var d := NewDag(ctx, sender, op);
        var check, order := ValidateDag(d);
        if check != DagOk {
          return Fail(WEAVE_BASE);
        }
        store.Set(DagKey(d.id), DagV(d));
        r := Ok(3000 + 500 * |d.nodes|, []);
      case BadWeavePayload => r := Fail(WEAVE_BASE + 1);
      case _ =>
        var raw := store.Get(DagKey(op.id));
        if raw.None? || !raw.value.DagV? {
          return Fail(WEAVE_BASE + 1);
        }
        assert IsDag(store.data, op.id);
        r := ChangeDag(store, ctx, raw.value.dag, op);
    }
  }

  method ChangeDag(store: Store, ctx: Ctx, d: Dag, op: WeaveOp) returns (r: Outcome)
    requires op.StartDag? || op.UpdateNode? || op.CancelDag? || op.SubmitOutput?
    requires IsDag(store.data, op.id) && d == DagAt(store.data, op.id) && d.id == op.id
    modifies store`data
    ensures (store.data, r) == WeaveSpec(old(store.data), ctx, [], op)
  {
    hide Prefix;
    var dag := new DagRecord.Decode(d);
    match op {
      case StartDag(_) =>
        if dag.status != DagPending {
          return Fail(WEAVE_BASE + 1);
        }
        dag.status := DagRunning;
        dag.startedAt := ctx.now;
        var i := 0;
        while i < |dag.nodes|
          invariant 0 <= i <= |dag.nodes| == |d.nodes|
          invariant forall j :: 0 <= j < i ==> dag.nodes[j] == d.nodes[j].(status := NodePending)
          invariant forall j :: i <= j < |d.nodes| ==> dag.nodes[j] == d.nodes[j]
          invariant dag.Value() == d.(status := DagRunning, startedAt := ctx.now, nodes := dag.nodes)
          invariant store.data == old(store.data)
        {
          dag.nodes := dag.nodes[i := dag.nodes[i].(status := NodePending)];
          i := i + 1;
        }
        assert dag.nodes == Started(d, ctx.now).nodes;
        r := Ok(2000, []);
      case UpdateNode(_, node, status) =>
        dag.nodes := UpdateFirstNode(dag.nodes, node, SetStatus(status, ctx.now));
        r := Ok(1000, []);
      case CancelDag(_) =>
        dag.status := DagCanceled;
        dag.finishedAt := ctx.now;
        r := Ok(2000, []);
      case SubmitOutput(_, node, outputRef) =>
        dag.nodes := UpdateFirstNode(dag.nodes, node, SetOutput(outputRef, ctx.now));
        r := Ok(2000, []);
    }
    store.Set(DagKey(dag.id), DagV(dag.Value()));
  }

  // ----- end of block

  /** The timeout is compared after a conversion to a signed 64-bit integer. */
  predicate TimedOut(d: Dag, now: int) {
    d.timeoutSec > 0 && now - d.startedAt > AsInt64(d.timeoutSec)
  }

  function EndTick(d: Dag, now: int): Dag {
    if d.status != DagRunning then d
    else if TimedOut(d, now) then d.(status := DagFailed, finishedAt := now)
    else Progressed(d, now)
  }

  function EndEvent(d: Dag, now: int): seq<Event> {
    if d.status != DagRunning then []
    else if TimedOut(d, now) then [Event(DagFailedEvent, d.id)]
    else if EndTick(d, now).status == DagCompleted then [Event(DagCompletedEvent, d.id)]
    else []
  }

  function EndEvents(cs: seq<KV<Value>>, now: int): seq<Event> {
    if cs == [] then []
    else
      var last := cs[|cs| - 1];
      EndEvents(cs[..|cs| - 1], now) + (if last.value.DagV? then EndEvent(last.value.dag, now) else [])
  }

  function TickValue(v: Value, now: int): Value {
    if v.DagV? then DagV(EndTick(v.dag, now)) else v
  }

  function Ticker(now: int): Value -> Value {
    (v: Value) => TickValue(v, now)
  }

  ghost function WeaveEnd(data: State, now: int): State {
    MapPrefix(data, Prefix(WeaveDag), Ticker(now))
  }

  ghost function WeaveEvents(data: State, now: int): seq<Event> {
    EndEvents(Scan(data, Prefix(WeaveDag)), now)
  }

  /** What the scheduler does with one running graph. */
  method EndDag(store: Store, d: Dag, now: int) returns (events: seq<Event>)
    requires d.status == DagRunning
    modifies store`data
    ensures store.data == old(store.data)[DagKey(d.id) := DagV(EndTick(d, now))]
    ensures events == EndEvent(d, now)
  {
    hide Prefix;
    var dag := new DagRecord.Decode(d);
    if dag.timeoutSec > 0 && now - dag.startedAt > AsInt64(dag.timeoutSec) {
      dag.status := DagFailed;
      dag.finishedAt := now;
      store.Set(DagKey(dag.id), DagV(dag.Value()));
      return [Event(DagFailedEvent, dag.id)];
    }
    dag.Progress(now);
    store.Set(DagKey(dag.id), DagV(dag.Value()));
    events := if dag.status == DagCompleted then [Event(DagCompletedEvent, dag.id)] else [];
  }

  method EndBlockWeave(store: Store, now: int) returns (out: seq<Event>)
    requires WeaveInv(store.data)
    modifies store`data
    ensures store.data == WeaveEnd(old(store.data), now)
    ensures out == WeaveEvents(old(store.data), now)
    ensures RoundDone(old(store.data), store.data, out, now)
  {
    hide Prefix, ValidDag, PartlyMapped, MapPrefix, Scan;
    ghost var data := store.data;
    ghost var p, f := Prefix(WeaveDag), Ticker(now);
    var dags := store.IteratePrefix(Prefix(WeaveDag));
    out := [];
    MappedNone(data, dags, f);
    var i := 0;
    while i < |dags|
      invariant 0 <= i <= |dags|
      invariant PartlyMapped(data, dags, i, f, store.data)
      invariant out == EndEvents(dags[..i], now)
    {
      assert dags[..i + 1][..i] == dags[..i];
      CandidateKey(data, dags, i);
      if !dags[i].value.DagV? || dags[i].value.dag.status != DagRunning {
        MappedSame(data, p, dags, i, f, store.data);
        i := i + 1;
        continue;
      }
      MappedOne(data, p, dags, i, f, store.data);
      var events := EndDag(store, dags[i].value.dag, now);
      out := out + events;
      i := i + 1;
    }
    assert dags[..i] == dags;
    MappedAll(data, p, dags, f, store.data);
    WeaveRound(data, now);
  }

  /** What a scheduling round makes of the stored graphs and which events it emits, told on the records:
      a running graph past its timeout fails, the other running ones move one stage on, all others stay,
      and an event says of each graph that it failed or completed. */
  ghost predicate RoundDone(data: State, d: State, out: seq<Event>, now: int) {
    && (forall id :: IsDag(d, id) <==> IsDag(data, id))
    && (forall id :: IsDag(data, id) ==> Rounded(DagAt(data, id), DagAt(d, id), now))
    && (forall id :: Event(DagFailedEvent, id) in out <==>
          IsDag(data, id) && DagAt(data, id).status == DagRunning && DagAt(d, id).status == DagFailed)
    && (forall id :: Event(DagCompletedEvent, id) in out <==>
          IsDag(data, id) && DagAt(data, id).status == DagRunning && DagAt(d, id).status == DagCompleted)
  }

  ghost predicate Rounded(a: Dag, b: Dag, now: int) {
    if a.status != DagRunning then b == a
    else if a.timeoutSec > 0 && now - a.startedAt > AsInt64(a.timeoutSec)
    then b == a.(status := DagFailed, finishedAt := now)
    else RanOn(a, b, now)
  }

  lemma TickRounds(d: Dag, now: int)
    ensures Rounded(d, EndTick(d, now), now)
  {
    if d.status == DagRunning {
      ProgressedRanOn(d, now);
    }
  }

  lemma TickedDag(data: State, now: int, x: Bytes)
    ensures IsDag(WeaveEnd(data, now), x) <==> IsDag(data, x)
    ensures IsDag(data, x) ==> DagAt(WeaveEnd(data, now), x) == EndTick(DagAt(data, x), now)
  {
  }

  lemma {:induction false} EventFromCandidate(cs: seq<KV<Value>>, now: int, e: Event)
    ensures e in EndEvents(cs, now) <==> exists i :: 0 <= i < |cs| && cs[i].value.DagV? && e in EndEvent(cs[i].value.dag, now)
  {
    hide EndEvent;
    if cs != [] {
      var n := |cs| - 1;
      EventFromCandidate(cs[..n], now, e);
      assert forall i :: 0 <= i < n ==> cs[..n][i] == cs[i];
      assert e in EndEvents(cs, now) <==>
        e in EndEvents(cs[..n], now) || (cs[n].value.DagV? && e in EndEvent(cs[n].value.dag, now));
    }
  }

  lemma EventNamesDag(d: Dag, now: int, e: Event)
    requires e in EndEvent(d, now)
    ensures e.subject == d.id && e.kind in {DagFailedEvent, DagCompletedEvent}
  {
  }

  lemma EventFromDag(data: State, now: int, id: Bytes, kind: EventKind)
    requires WeaveInv(data)
    ensures Event(kind, id) in WeaveEvents(data, now) <==> IsDag(data, id) && Event(kind, id) in EndEvent(DagAt(data, id), now)
  {
    hide Prefix, ValidDag, EndEvent, EndEvents;
    var cs := Scan(data, Prefix(WeaveDag));
    EventFromCandidate(cs, now, Event(kind, id));
    if Event(kind, id) in WeaveEvents(data, now) {
      var i :| 0 <= i < |cs| && cs[i].value.DagV? && Event(kind, id) in EndEvent(cs[i].value.dag, now);
      EventNamesDag(cs[i].value.dag, now, Event(kind, id));
      CandidateKey(data, cs, i);
    }
    if IsDag(data, id) {
      ScanMembers(data, Prefix(WeaveDag));
      var i :| 0 <= i < |cs| && cs[i].key == DagKey(id);
    }
  }

  lemma WeaveRound(data: State, now: int)
    requires WeaveInv(data)
    ensures RoundDone(data, WeaveEnd(data, now), WeaveEvents(data, now), now)
  {
    hide Prefix, ValidDag, WeaveEvents, WeaveEnd, TimedOut, Progressed, Rounded;
    forall id ensures IsDag(WeaveEnd(data, now), id) <==> IsDag(data, id)
      ensures IsDag(data, id) ==> DagAt(WeaveEnd(data, now), id) == EndTick(DagAt(data, id), now)
      ensures IsDag(data, id) ==> DagAt(data, id).id == id && Rounded(DagAt(data, id), DagAt(WeaveEnd(data, now), id), now)
      ensures Event(DagFailedEvent, id) in WeaveEvents(data, now) <==>
        IsDag(data, id) && Event(DagFailedEvent, id) in EndEvent(DagAt(data, id), now)
      ensures Event(DagCompletedEvent, id) in WeaveEvents(data, now) <==>
        IsDag(data, id) && Event(DagCompletedEvent, id) in EndEvent(DagAt(data, id), now)
    {
      TickedDag(data, now, id);
      EventFromDag(data, now, id, DagFailedEvent);
      EventFromDag(data, now, id, DagCompletedEvent);
      if IsDag(data, id) {
        TickRounds(DagAt(data, id), now);
      }
    }
    forall d: Dag | d.status == DagRunning && !TimedOut(d, now) ensures Progressed(d, now).status != DagFailed {
      ProgressedRanOn(d, now);
    }
  }

  lemma CandidateKey(data: State, cs: seq<KV<Value>>, i: nat)
    requires WeaveInv(data) && cs == Scan(data, Prefix(WeaveDag)) && i < |cs|
    ensures IsDagKey(cs[i].key) && cs[i].key in data && data[cs[i].key] == cs[i].value
    ensures cs[i].value.DagV? ==> cs[i].key == DagKey(cs[i].value.dag.id)
  {
    ScanMembers(data, Prefix(WeaveDag));
    KeyOfRest(WeaveDag, cs[i].key);
    assert cs[i].value.DagV? ==> IsDag(data, Rest(WeaveDag, cs[i].key));
  }
}
