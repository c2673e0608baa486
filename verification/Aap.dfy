/** The end-of-block heartbeat check of the task module. */
module Aap {
  import opened ByteStrings
  import opened Keys
  import opened Engine
  import opened Records
  import opened ScanMap

  const HEARTBEAT_LIMIT: int := 180

  function TaskKey(id: Bytes): Bytes { Key(AapTask, id) }

  predicate IsTask(data: State, id: Bytes) { TaskKey(id) in data && data[TaskKey(id)].TaskV? }

  ghost predicate TasksKeyed(data: State) {
    forall id :: IsTask(data, id) ==> data[TaskKey(id)].task.id == id
  }

  predicate Silent(t: Task, now: int) {
    t.status == TaskExecuting && now - t.lastHeartbeat > HEARTBEAT_LIMIT
  }

  function CheckValue(v: Value, now: int): Value {
    if v.TaskV? && Silent(v.task, now) then TaskV(v.task.(status := TaskFailed)) else v
  }

  function HeartbeatCheck(now: int): Value -> Value {
    (v: Value) => CheckValue(v, now)
  }

  ghost function AapEnd(data: State, now: int): State {
    MapPrefix(data, Prefix(AapTask), HeartbeatCheck(now))
  }

  function FailureEvent(v: Value, now: int): seq<Event> {
    if v.TaskV? && Silent(v.task, now) then [Event(TaskFailedEvent, v.task.id)] else []
  }

  function FailureEvents(cs: seq<KV<Value>>, now: int): seq<Event> {
    if cs == [] then [] else FailureEvents(cs[..|cs| - 1], now) + FailureEvent(cs[|cs| - 1].value, now)
  }

  ghost function AapEvents(data: State, now: int): seq<Event> {
    FailureEvents(Scan(data, Prefix(AapTask)), now)
  }

  lemma TaskCandidate(data: State, cs: seq<KV<Value>>, i: nat)
    requires TasksKeyed(data) && cs == Scan(data, Prefix(AapTask)) && i < |cs|
    ensures cs[i].value.TaskV? ==> cs[i].key == TaskKey(cs[i].value.task.id)
  {
    ScanMembers(data, Prefix(AapTask));
    KeyOfRest(AapTask, cs[i].key);
    assert cs[i].value.TaskV? ==> IsTask(data, Rest(AapTask, cs[i].key));
  }

  /** What the heartbeat check makes of the stored tasks, told on the records: exactly the executing ones
      silent for more than 180 seconds fail, each with an event. */
  ghost predicate TasksChecked(data: State, d: State, out: seq<Event>, now: int) {
    && (forall id :: IsTask(d, id) <==> IsTask(data, id))
    && (forall id :: IsTask(data, id) ==> Checked(data[TaskKey(id)].task, d[TaskKey(id)].task, now))
    && (forall id :: Event(TaskFailedEvent, id) in out <==>
          IsTask(data, id) && data[TaskKey(id)].task.status == TaskExecuting && now - data[TaskKey(id)].task.lastHeartbeat > 180)
  }

  predicate Checked(t: Task, u: Task, now: int) {
    u == if t.status == TaskExecuting && now - t.lastHeartbeat > 180 then t.(status := TaskFailed) else t
  }

  lemma {:induction false} FailureFromCandidate(cs: seq<KV<Value>>, now: int, e: Event)
    ensures e in FailureEvents(cs, now) <==> exists i :: 0 <= i < |cs| && e in FailureEvent(cs[i].value, now)
  {
    hide FailureEvent;
    if cs != [] {
      var n := |cs| - 1;
      FailureFromCandidate(cs[..n], now, e);
      assert forall i :: 0 <= i < n ==> cs[..n][i] == cs[i];
      assert e in FailureEvents(cs, now) <==> e in FailureEvents(cs[..n], now) || e in FailureEvent(cs[n].value, now);
    }
  }

  lemma FailureFromTask(data: State, now: int, id: Bytes)
    requires TasksKeyed(data)
    ensures Event(TaskFailedEvent, id) in AapEvents(data, now) <==> IsTask(data, id) && Silent(data[TaskKey(id)].task, now)
  {
    hide Prefix, Silent, FailureEvents;
    var cs := Scan(data, Prefix(AapTask));
    FailureFromCandidate(cs, now, Event(TaskFailedEvent, id));
    if Event(TaskFailedEvent, id) in AapEvents(data, now) {
      var i :| 0 <= i < |cs| && Event(TaskFailedEvent, id) in FailureEvent(cs[i].value, now);
      TaskCandidate(data, cs, i);
    }
    if IsTask(data, id) {
      ScanMembers(data, Prefix(AapTask));
      var i :| 0 <= i < |cs| && cs[i].key == TaskKey(id);
    }
  }

  lemma TasksEnd(data: State, now: int)
    requires TasksKeyed(data)
    ensures TasksChecked(data, AapEnd(data, now), AapEvents(data, now), now)
  {
    hide Prefix, AapEvents;
    forall id ensures Event(TaskFailedEvent, id) in AapEvents(data, now) <==> IsTask(data, id) && Silent(data[TaskKey(id)].task, now) {
      FailureFromTask(data, now, id);
    }
  }

  method EndBlockAap(store: Store, now: int) returns (failures: seq<Event>)
    requires TasksKeyed(store.data)
    modifies store`data
    ensures store.data == AapEnd(old(store.data), now)
    ensures failures == AapEvents(old(store.data), now)
    ensures TasksChecked(old(store.data), store.data, failures, now)
  {
    hide Prefix, PartlyMapped, MapPrefix, Scan;
    ghost var data := store.data;
    ghost var p, f := Prefix(AapTask), HeartbeatCheck(now);
    var active := store.IteratePrefix(Prefix(AapTask));
    failures := [];
    MappedNone(data, active, f);
    var i := 0;
    while i < |active|
      invariant 0 <= i <= |active|
      invariant PartlyMapped(data, active, i, f, store.data)
      invariant failures == FailureEvents(active[..i], now)
    {
      assert active[..i + 1][..i] == active[..i];
      TaskCandidate(data, active, i);
      if active[i].value.TaskV? && Silent(active[i].value.task, now) {
        var task := active[i].value.task.(status := TaskFailed);
        MappedOne(data, p, active, i, f, store.data);
        store.Set(TaskKey(task.id), TaskV(task));
        failures := failures + [Event(TaskFailedEvent, task.id)];
      } else {
        MappedSame(data, p, active, i, f, store.data);
      }
      i := i + 1;
    }
    assert active[..i] == active;
    MappedAll(data, p, active, f, store.data);
    TasksEnd(data, now);
  }
}
