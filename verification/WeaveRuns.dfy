/** Task graphs over whole runs: stored graphs stay valid, a running graph cannot outlive its timeout,
    and one left alone completes at the second scheduling round. */
module WeaveRuns {
  import opened ByteStrings
  import opened Codec
  import opened Keys
  import opened Engine
  import opened Records
  import opened DagOrder
  import opened DagValidate
  import opened ScanMap
  import opened Weave

  datatype WeaveStep = Call(ctx: Ctx, sender: Bytes, op: WeaveOp) | Round(now: int)

  ghost function AfterStep(data: State, step: WeaveStep): State {
    match step
    case Call(ctx, sender, op) => WeaveSpec(data, ctx, sender, op).0
    case Round(now) => WeaveEnd(data, now)
  }

  ghost function AfterRun(data: State, steps: seq<WeaveStep>): State
    decreases |steps|
  {
    if steps == [] then data else AfterRun(AfterStep(data, steps[0]), steps[1..])
  }

  // ----- validity is never lost

  predicate SameShape(a: Dag, b: Dag) {
    && b.id == a.id && b.edges == a.edges && b.timeoutSec == a.timeoutSec && |b.nodes| == |a.nodes|
    && forall i :: 0 <= i < |a.nodes| ==> b.nodes[i].id == a.nodes[i].id
  }

  lemma SameShapeValid(a: Dag, b: Dag)
    requires ValidDag(a) && SameShape(a, b)
    ensures ValidDag(b)
  {
  }

  lemma {:induction false} UpdateFirstShape(nodes: seq<DagNode>, id: Bytes, f: DagNode -> DagNode)
    requires forall n :: f(n).id == n.id
    ensures |UpdateFirst(nodes, id, f)| == |nodes|
    ensures forall i :: 0 <= i < |nodes| ==> UpdateFirst(nodes, id, f)[i].id == nodes[i].id
  {
    if nodes != [] && nodes[0].id != id {
      UpdateFirstShape(nodes[1..], id, f);
    }
  }

  /** How one step moves a stored graph that it does not create anew. */
  ghost predicate Moves(a: Dag, b: Dag) {
    && SameShape(a, b)
    && (a.status != DagPending && a.status != DagRunning ==> b.status != DagPending && b.status != DagRunning)
    && (a.status == DagRunning ==> b.status != DagPending)
    && (a.status == DagRunning && b.status == DagRunning ==> b.startedAt == a.startedAt)
  }

  predicate Creates(step: WeaveStep, id: Bytes) {
    step.Call? && step.op.CreateDag? && NewDag(step.ctx, step.sender, step.op).id == id
  }

  lemma WrittenDag(data: State, id: Bytes, d: Dag, x: Bytes)
    ensures IsDag(data[DagKey(id) := DagV(d)], x) <==> x == id || IsDag(data, x)
    ensures IsDag(data[DagKey(id) := DagV(d)], x) ==>
      DagAt(data[DagKey(id) := DagV(d)], x) == if x == id then d else DagAt(data, x)
  {
  }

  /** Every step leaves an existing graph in place, changed as Moves says, unless it creates it anew;
      a timed-out running graph fails in the round. */
  lemma DagStep(data: State, step: WeaveStep, id: Bytes)
    requires WeaveInv(data) && IsDag(data, id) && !Creates(step, id)
    ensures IsDag(AfterStep(data, step), id)
    ensures Moves(DagAt(data, id), DagAt(AfterStep(data, step), id))
    ensures step.Round? && DagAt(data, id).status == DagRunning && TimedOut(DagAt(data, id), step.now) ==>
      DagAt(AfterStep(data, step), id).status == DagFailed
  {
    hide Prefix, ValidDag, WeaveEnd;
    match step {
      case Round(now) => TickedDag(data, now, id);
      case Call(ctx, sender, op) =>
        if WeaveSpec(data, ctx, sender, op).1.Ok? {
          if op.CreateDag? {
            WrittenDag(data, NewDag(ctx, sender, op).id, NewDag(ctx, sender, op), id);
          } else if op.StartDag? {
            WrittenDag(data, op.id, Started(DagAt(data, op.id), ctx.now), id);
          } else if op.CancelDag? {
            WrittenDag(data, op.id, DagAt(data, op.id).(status := DagCanceled, finishedAt := ctx.now), id);
          } else {
            var f := if op.UpdateNode? then SetStatus(op.status, ctx.now) else SetOutput(op.outputRef, ctx.now);
            var d := DagAt(data, op.id);
            UpdateFirstShape(d.nodes, op.node, f);
            WrittenDag(data, op.id, d.(nodes := UpdateFirst(d.nodes, op.node, f)), id);
          }
        }
    }
  }

  /** Only a valid graph enters the tree, and every stored one stays valid. */
  lemma StepKeepsValid(data: State, step: WeaveStep)
    requires WeaveInv(data)
    ensures WeaveInv(AfterStep(data, step))
  {
    hide Prefix, ValidDag;
    var d := AfterStep(data, step);
    forall id | IsDag(d, id) ensures DagAt(d, id).id == id && ValidDag(DagAt(d, id)) {
      if Creates(step, id) {
        var made := NewDag(step.ctx, step.sender, step.op);
        WrittenDag(data, made.id, made, id);
      } else {
        StepMakesNoOther(data, step, id);
        DagStep(data, step, id);
        SameShapeValid(DagAt(data, id), DagAt(d, id));
      }
    }
  }

  lemma StepMakesNoOther(data: State, step: WeaveStep, id: Bytes)
    requires IsDag(AfterStep(data, step), id) && !Creates(step, id)
    ensures IsDag(data, id)
  {
  }

  lemma {:induction false} RunKeepsValid(data: State, steps: seq<WeaveStep>)
    requires WeaveInv(data)
    ensures WeaveInv(AfterRun(data, steps))
    decreases |steps|
  {
    if steps != [] {
      StepKeepsValid(data, steps[0]);
      RunKeepsValid(AfterStep(data, steps[0]), steps[1..]);
    }
  }

  // ----- what each action does, told on the records

  /** Ids are distinct, so an update by id changes that node and no other. */
  lemma UpdateByName(nodes: seq<DagNode>, id: Bytes, f: DagNode -> DagNode)
    requires IdsOk(nodes)
    ensures |UpdateFirst(nodes, id, f)| == |nodes|
    ensures forall i :: 0 <= i < |nodes| ==> UpdateFirst(nodes, id, f)[i] == if nodes[i].id == id then f(nodes[i]) else nodes[i]
  {
    if i :| 0 <= i < |nodes| && nodes[i].id == id {
      UpdateFirstHit(nodes, id, f, i);
    } else {
      UpdateFirstMiss(nodes, id, f);
    }
  }

  /** Which graphs an action accepts. */
  ghost predicate Accepts(data: State, ctx: Ctx, sender: Bytes, op: WeaveOp) {
    match op
    case CreateDag(id, root, nodes, edges, timeoutSec) =>
      && |nodes| >= 2 && IdsOk(nodes) && EdgesOk(NodeIds(nodes), edges) && Acyclic(edges) && timeoutSec > 0
    case StartDag(id) => IsDag(data, id) && DagAt(data, id).status == DagPending
    case UpdateNode(id, _, _) => IsDag(data, id)
    case CancelDag(id) => IsDag(data, id)
    case SubmitOutput(id, _, _) => IsDag(data, id)
    case BadWeavePayload => false
  }

  /** What an accepted action makes of the graph a. */
  predicate Acted(a: Dag, b: Dag, op: WeaveOp, now: int) {
    match op
    case CreateDag(_, _, _, _, _) => false
    case BadWeavePayload => false
    case CancelDag(_) => b == a.(status := DagCanceled, finishedAt := now)
    case StartDag(_) =>
      && b == a.(status := DagRunning, startedAt := now, nodes := b.nodes) && |b.nodes| == |a.nodes|
      && forall i :: 0 <= i < |a.nodes| ==> b.nodes[i] == a.nodes[i].(status := NodePending)
    case UpdateNode(_, node, status) =>
      && b == a.(nodes := b.nodes) && |b.nodes| == |a.nodes|
      && forall i :: 0 <= i < |a.nodes| ==>
        b.nodes[i] == if a.nodes[i].id == node then a.nodes[i].(status := status, finishedAt := now) else a.nodes[i]
    case SubmitOutput(_, node, outputRef) =>
      && b == a.(nodes := b.nodes) && |b.nodes| == |a.nodes|
      && forall i :: 0 <= i < |a.nodes| ==>
        b.nodes[i] ==
          if a.nodes[i].id == node then a.nodes[i].(outputRef := outputRef, status := NodeCompleted, finishedAt := now)
          else a.nodes[i]
  }

  /** Every action succeeds exactly on the graphs it accepts and then changes that graph alone, as told;
      one that fails changes nothing. A created graph is stored pending, as it was given. */
  lemma ActionsTold(data: State, ctx: Ctx, sender: Bytes, op: WeaveOp, id: Bytes)
    requires WeaveInv(data)
    ensures var (d, r) := WeaveSpec(data, ctx, sender, op);
      && (r.Ok? <==> Accepts(data, ctx, sender, op)) && (r.Fail? ==> d == data)
      && (r.Ok? && op.CreateDag? ==>
            var made := if op.id == [] then ctx.stamp else op.id;
            && IsDag(d, made)
            && DagAt(d, made) == Dag(made, op.rootTask, sender, op.nodes, op.edges, DagPending, ctx.now, 0, 0, op.timeoutSec)
            && (id != made ==> (IsDag(d, id) <==> IsDag(data, id)) && (IsDag(data, id) ==> DagAt(d, id) == DagAt(data, id))))
      && (r.Ok? && !op.CreateDag? ==>
            && (IsDag(d, id) <==> IsDag(data, id))
            && (IsDag(data, id) ==>
                  if id == op.id then Acted(DagAt(data, id), DagAt(d, id), op, ctx.now) else DagAt(d, id) == DagAt(data, id)))
  {
    hide Prefix, UpdateFirst, Acyclic, EdgesOk;
    if WeaveSpec(data, ctx, sender, op).1.Ok? {
      match op {
        case CreateDag(_, _, _, _, _) => WrittenDag(data, NewDag(ctx, sender, op).id, NewDag(ctx, sender, op), id);
        case StartDag(x) => WrittenDag(data, x, Started(DagAt(data, x), ctx.now), id);
        case CancelDag(x) => WrittenDag(data, x, DagAt(data, x).(status := DagCanceled, finishedAt := ctx.now), id);
        case UpdateNode(x, node, status) =>
          var a, f := DagAt(data, x), SetStatus(status, ctx.now);
          UpdateByName(a.nodes, node, f);
          WrittenDag(data, x, a.(nodes := UpdateFirst(a.nodes, node, f)), id);
        case SubmitOutput(x, node, outputRef) =>
          var a, f := DagAt(data, x), SetOutput(outputRef, ctx.now);
          UpdateByName(a.nodes, node, f);
          WrittenDag(data, x, a.(nodes := UpdateFirst(a.nodes, node, f)), id);
      }
    }
  }

  // ----- running, once

  predicate NeverCreates(steps: seq<WeaveStep>, id: Bytes) {
    forall i :: 0 <= i < |steps| ==> !Creates(steps[i], id)
  }

  /** Without a new creation: a graph that has left PENDING and RUNNING never comes back, and while
      it runs its start time stands. */
  lemma {:induction false} RunMoves(data: State, steps: seq<WeaveStep>, id: Bytes)
    requires WeaveInv(data) && IsDag(data, id) && NeverCreates(steps, id)
    ensures IsDag(AfterRun(data, steps), id) && Moves(DagAt(data, id), DagAt(AfterRun(data, steps), id))
    decreases |steps|
  {
    hide Prefix, ValidDag, WeaveInv;
    if steps != [] {
      var d := AfterStep(data, steps[0]);
      DagStep(data, steps[0], id);
      StepKeepsValid(data, steps[0]);
      assert forall i :: 0 <= i < |steps[1..]| ==> steps[1..][i] == steps[i + 1];
      RunMoves(d, steps[1..], id);
    }
  }

  lemma {:induction false} RunAppends(data: State, a: seq<WeaveStep>, b: seq<WeaveStep>)
    ensures AfterRun(data, a + b) == AfterRun(AfterRun(data, a), b)
    decreases |a|
  {
    if a == [] {
      assert a + b == b;
    } else {
      assert (a + b)[1..] == a[1..] + b;
      RunAppends(AfterStep(data, a[0]), a[1..], b);
    }
  }

  /** Whatever transactions and rounds surround it, the first round past the timeout of a running
      graph ends its running for good. */
  lemma TimeoutEndsRun(data: State, before: seq<WeaveStep>, now: int, after: seq<WeaveStep>, id: Bytes)
    requires WeaveInv(data) && IsDag(data, id) && DagAt(data, id).status == DagRunning
    requires NeverCreates(before, id) && NeverCreates(after, id) && TimedOut(DagAt(data, id), now)
    ensures IsDag(AfterRun(data, before + [Round(now)] + after), id)
    ensures DagAt(AfterRun(data, before + [Round(now)] + after), id).status != DagRunning
  {
    hide Prefix, ValidDag, WeaveInv;
    var d := AfterRun(data, before);
    RunMoves(data, before, id);
    RunKeepsValid(data, before);
    DagStep(d, Round(now), id);
    StepKeepsValid(d, Round(now));
    RunMoves(AfterStep(d, Round(now)), after, id);
    RunAppends(data, before + [Round(now)], after);
    RunAppends(data, before, [Round(now)]);
    assert [Round(now)][1..] == [];
    assert AfterRun(d, [Round(now)]) == AfterRun(AfterStep(d, Round(now)), []);
  }

  /** A pending graph that is started and then left alone has completed after the second round
      exactly when neither round finds it timed out. */
  lemma CompletesAtSecondRound(data: State, ctx: Ctx, sender: Bytes, id: Bytes, first: int, second: int)
    requires WeaveInv(data) && IsDag(data, id) && DagAt(data, id).status == DagPending
    ensures var started := AfterStep(data, Call(ctx, sender, StartDag(id)));
      var end := AfterStep(AfterStep(started, Round(first)), Round(second));
      && IsDag(started, id) && IsDag(end, id)
      && (DagAt(end, id).status == DagCompleted <==>
            !TimedOut(DagAt(started, id), first) && !TimedOut(DagAt(started, id), second))
  {
    hide Prefix, ValidDag, WeaveEnd, TimedOut;
    var d := DagAt(data, id);
    var s := Started(d, ctx.now);
    var started := AfterStep(data, Call(ctx, sender, StartDag(id)));
    WrittenDag(data, id, s, id);
    TickedDag(started, first, id);
    TickedDag(AfterStep(started, Round(first)), second, id);
    assert |s.nodes| >= 2 by {
      AtLeastTwo(d);
    }
    assert s.nodes[0].status == NodePending;
    var one := EndTick(s, first);
    TimeoutUnmoved(s, one, second);
    if one.status == DagRunning {
      assert !Done(one.nodes[0]);
      assert forall i :: 0 <= i < |one.nodes| ==> one.nodes[i].status == NodeRunning;
      assert AllDone(TickNodes(one.nodes, second));
    }
  }

  lemma AtLeastTwo(d: Dag)
    requires ValidDag(d)
    ensures |d.nodes| >= 2
  {
  }

  lemma TimeoutUnmoved(s: Dag, t: Dag, now: int)
    requires t.startedAt == s.startedAt && t.timeoutSec == s.timeoutSec
    ensures TimedOut(t, now) <==> TimedOut(s, now)
  {
  }

  /** A running graph not timed out is completed by the next round exactly when all its nodes were
      running, completed or skipped, and then an event says so. */
  lemma CompletesInOneRound(data: State, id: Bytes, now: int)
    requires WeaveInv(data) && IsDag(data, id) && DagAt(data, id).status == DagRunning
    requires now - DagAt(data, id).startedAt <= AsInt64(DagAt(data, id).timeoutSec)
    ensures var d := AfterStep(data, Round(now));
      && IsDag(d, id)
      && (DagAt(d, id).status == DagCompleted <==>
            forall n :: n in DagAt(data, id).nodes ==> n.status in {NodeRunning, NodeCompleted, NodeSkipped})
      && (Event(DagCompletedEvent, id) in WeaveEvents(data, now) <==> DagAt(d, id).status == DagCompleted)
  {
    hide Prefix, ValidDag, WeaveEvents, WeaveEnd;
    WeaveRound(data, now);
    var a := DagAt(data, id);
    assert Rounded(a, DagAt(WeaveEnd(data, now), id), now);
    if forall i :: 0 <= i < |a.nodes| ==> a.nodes[i].status in {NodeRunning, NodeCompleted, NodeSkipped} {
    } else {
      var i :| 0 <= i < |a.nodes| && a.nodes[i].status !in {NodeRunning, NodeCompleted, NodeSkipped};
      assert a.nodes[i] in a.nodes;
    }
  }

  /** One that no round finds timed out is completed by the second exactly when no node is in a state of
      its own: each is pending, ready, running, completed or skipped. */
  lemma CompletesInTwoRounds(data: State, id: Bytes, first: int, second: int)
    requires WeaveInv(data) && IsDag(data, id) && DagAt(data, id).status == DagRunning
    requires first - DagAt(data, id).startedAt <= AsInt64(DagAt(data, id).timeoutSec)
    requires second - DagAt(data, id).startedAt <= AsInt64(DagAt(data, id).timeoutSec)
    ensures var d := AfterStep(AfterStep(data, Round(first)), Round(second));
      && IsDag(d, id)
      && (DagAt(d, id).status == DagCompleted <==>
            forall n :: n in DagAt(data, id).nodes ==>
              n.status in {NodePending, NodeReady, NodeRunning, NodeCompleted, NodeSkipped})
  {
    hide Prefix, ValidDag, WeaveEvents, WeaveEnd, WeaveInv;
    var d := AfterStep(data, Round(first));
    WeaveRound(data, first);
    StepKeepsValid(data, Round(first));
    WeaveRound(d, second);
    var a, m, z := DagAt(data, id), DagAt(d, id), DagAt(AfterStep(d, Round(second)), id);
    assert Rounded(a, m, first) && Rounded(m, z, second);
    TwoStages(a, m, z, first, second);
    assert forall i :: 0 <= i < |a.nodes| ==> a.nodes[i] in a.nodes;
  }

  lemma TwoStages(a: Dag, m: Dag, z: Dag, first: int, second: int)
    requires RanOn(a, m, first) && a.status == DagRunning && if m.status == DagRunning then RanOn(m, z, second) else z == m
    ensures z.status == DagCompleted <==>
      forall i :: 0 <= i < |a.nodes| ==> a.nodes[i].status in {NodePending, NodeReady, NodeRunning, NodeCompleted, NodeSkipped}
  {
    assert forall i :: 0 <= i < |a.nodes| ==> StageOf(a.nodes[i], m.nodes[i], first);
    if z.status != DagCompleted {
      var i :| 0 <= i < |m.nodes| && m.nodes[i].status !in {NodeRunning, NodeCompleted, NodeSkipped};
      assert a.nodes[i].status !in {NodePending, NodeReady, NodeRunning, NodeCompleted, NodeSkipped};
    } else if m.status == DagRunning {
      forall i | 0 <= i < |a.nodes|
        ensures a.nodes[i].status in {NodePending, NodeReady, NodeRunning, NodeCompleted, NodeSkipped}
      {
        assert m.nodes[i].status in {NodeRunning, NodeCompleted, NodeSkipped};
      }
    }
  }

  /** For clocks of 63 bits, the signed comparison times a graph out exactly when the elapsed time
      exceeds the timeout or the timeout does not fit a signed word. */
  lemma TimeoutMeaning(d: Dag, now: int)
    requires d.timeoutSec > 0 && 0 <= now - d.startedAt < TWO64 / 2
    ensures TimedOut(d, now) <==> now - d.startedAt > d.timeoutSec || d.timeoutSec >= TWO64 / 2
  {
  }
}
