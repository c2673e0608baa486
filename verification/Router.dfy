/** The module router. Modules are visited in the arbitrary order of a map, and the result of a block
    does not depend on that order. */
module Router {
  import opened ByteStrings
  import opened Keys
  import opened Engine
  import opened Records
  import opened CapGraph
  import opened CapSweep
  import opened CapInvariant
  import opened CapSteps
  import opened CapTheorems
  import opened DagValidate
  import opened Weave
  import opened WeaveRuns
  import opened Aap
  import opened Fiat
  import opened Locality

  datatype ModuleName = AmxMod | AapMod | WeaveMod | CapMod | RepMod | ArbMod | AfdMod | FiatMod | NodeMod | GovMod

  function OwnerOfModule(m: ModuleName): Owner {
    match m
    case AmxMod => Owner.Amx
    case AapMod => Owner.Aap
    case WeaveMod => Owner.Weave
    case CapMod => Owner.Cap
    case RepMod => Owner.Rep
    case ArbMod => Owner.Arb
    case AfdMod => Owner.Afd
    case FiatMod => Owner.Fiat
    case NodeMod => Owner.Node
    case GovMod => Owner.Gov
  }

  function ModuleOwning(o: Owner): Option<ModuleName> {
    match o
    case Amx => Some(AmxMod)
    case Aap => Some(AapMod)
    case Weave => Some(WeaveMod)
    case Cap => Some(CapMod)
    case Rep => Some(RepMod)
    case Arb => Some(ArbMod)
    case Afd => Some(AfdMod)
    case Fiat => Some(FiatMod)
    case Node => Some(NodeMod)
    case Gov => Some(GovMod)
    case _ => None
  }

  lemma ModuleOwnsItsKeys(m: ModuleName, o: Owner)
    ensures ModuleOwning(o) == Some(m) <==> o == OwnerOfModule(m)
  {
  }

  /** What the end of a block does in one module, seen alone. */
  ghost function ModuleEnd(m: ModuleName, data: State, now: int): (r: (State, seq<Event>))
    ensures r.0.Keys == data.Keys
  {
    match m
    case AapMod => (AapEnd(data, now), AapEvents(data, now))
    case WeaveMod => (WeaveEnd(data, now), WeaveEvents(data, now))
    case CapMod => (SweepSpec(data, now), SweepEvents(data, now))
    case FiatMod => (data, FiatEvents(data))
    case _ => (data, [])
  }

  lemma ModuleLocal(m: ModuleName, data: State, d: State, now: int)
    ensures TouchesOnly(data, ModuleEnd(m, data, now).0, OwnerOfModule(m))
    ensures ModuleEnd(m, data, now).0.Keys == data.Keys
    ensures SameOwned(data, d, OwnerOfModule(m)) ==>
      SameOwned(ModuleEnd(m, data, now).0, ModuleEnd(m, d, now).0, OwnerOfModule(m)) &&
      ModuleEnd(m, data, now).1 == ModuleEnd(m, d, now).1
  {
    hide Prefix, OwnerOf, SweepEvents, WeaveEvents, AapEvents, FiatEvents, Expiring, Marked;
    match m {
      case AapMod => AapLocal(data, d, now);
      case WeaveMod => WeaveLocal(data, d, now);
      case CapMod => CapLocal(data, d, now);
      case FiatMod => FiatLocal(data, d);
      case _ =>
    }
  }

  /** What a key holds once the modules of done have ended the block: what its owner, run alone on the
      state before, makes of it. */
  ghost function MergedValue(data: State, done: set<ModuleName>, now: int, k: Bytes): Value
    requires k in data
  {
    match ModuleOwning(OwnerOf(k))
    case Some(m) => if m in done then ModuleEnd(m, data, now).0[k] else data[k]
    case None => data[k]
  }

  /** The state once the modules of done have ended the block, in whatever order. */
  ghost function Merged(data: State, done: set<ModuleName>, now: int): (d: State)
    ensures d.Keys == data.Keys
  {
    map k | k in data :: MergedValue(data, done, now, k)
  }

  lemma StillOwn(data: State, done: set<ModuleName>, now: int, m: ModuleName)
    requires m !in done
    ensures SameOwned(data, Merged(data, done, now), OwnerOfModule(m))
  {
    hide OwnerOf, ModuleEnd, OwnerOfModule, ModuleOwning;
    forall k | OwnerOf(k) == OwnerOfModule(m) && k in data ensures MergedValue(data, done, now, k) == data[k] {
      ModuleOwnsItsKeys(m, OwnerOf(k));
    }
  }

  lemma MergeOne(data: State, done: set<ModuleName>, now: int, m: ModuleName)
    requires m !in done
    ensures ModuleEnd(m, Merged(data, done, now), now).0 == Merged(data, done + {m}, now)
    ensures ModuleEnd(m, Merged(data, done, now), now).1 == ModuleEnd(m, data, now).1
  {
    hide OwnerOf, ModuleEnd, OwnerOfModule, ModuleOwning;
    var d := Merged(data, done, now);
    var e := ModuleEnd(m, d, now).0;
    StillOwn(data, done, now, m);
    ModuleLocal(m, data, d, now);
    ModuleLocal(m, d, d, now);
    forall k | k in data ensures e[k] == MergedValue(data, done + {m}, now, k) {
      ModuleOwnsItsKeys(m, OwnerOf(k));
    }
  }

  /** The events of a block as a bag: those of every module run alone. Modules not named emit none. */
  ghost function EventBag(data: State, mods: set<ModuleName>, now: int): multiset<Event> {
    BagOf(AapMod, data, mods, now) + BagOf(WeaveMod, data, mods, now) + BagOf(CapMod, data, mods, now) + BagOf(FiatMod, data, mods, now)
  }

  ghost function BagOf(m: ModuleName, data: State, mods: set<ModuleName>, now: int): multiset<Event> {
    if m in mods then multiset(ModuleEnd(m, data, now).1) else multiset{}
  }

  lemma BagOfGrows(n: ModuleName, data: State, mods: set<ModuleName>, now: int, m: ModuleName)
    requires m !in mods
    ensures BagOf(n, data, mods + {m}, now) ==
      BagOf(n, data, mods, now) + (if n == m then multiset(ModuleEnd(m, data, now).1) else multiset{})
  {
    hide ModuleEnd;
  }

  lemma Silent(m: ModuleName, data: State, now: int)
    requires m !in {AapMod, WeaveMod, CapMod, FiatMod}
    ensures ModuleEnd(m, data, now).1 == []
  {
  }

  lemma BagGrows(data: State, mods: set<ModuleName>, now: int, m: ModuleName)
    requires m !in mods
    ensures EventBag(data, mods + {m}, now) == EventBag(data, mods, now) + multiset(ModuleEnd(m, data, now).1)
  {
    hide ModuleEnd, BagOf;
    BagOfGrows(AapMod, data, mods, now, m);
    BagOfGrows(WeaveMod, data, mods, now, m);
    BagOfGrows(CapMod, data, mods, now, m);
    BagOfGrows(FiatMod, data, mods, now, m);
    if m !in {AapMod, WeaveMod, CapMod, FiatMod} {
      Silent(m, data, now);
    }
  }

  /** What the modules rely on when a block ends. */
  ghost predicate EndReady(data: State) {
    CapInv(data) && WeaveInv(data) && TasksKeyed(data)
  }

  lemma ReadyAlone(data: State, d: State, m: ModuleName)
    requires EndReady(data) && SameOwned(data, d, OwnerOfModule(m))
    ensures m == CapMod ==> CapInv(d)
    ensures m == WeaveMod ==> WeaveInv(d)
    ensures m == AapMod ==> TasksKeyed(d)
  {
    hide Prefix, OwnerOf, CapInv, ValidDag;
    if m == CapMod {
      OtherOwnersKeepInv(data, d);
    } else if m == WeaveMod {
      SameDags(data, d);
    } else if m == AapMod {
      forall id | IsTask(d, id) ensures d[TaskKey(id)].task.id == id {
        KeyOwner(AapTask, id);
        assert IsTask(data, id);
      }
    }
  }

  lemma SameDags(data: State, d: State)
    requires SameOwned(data, d, Owner.Weave)
    ensures forall id :: IsDag(d, id) <==> IsDag(data, id)
    ensures forall id :: IsDag(d, id) ==> DagAt(d, id) == DagAt(data, id)
  {
    hide Prefix, OwnerOf;
    forall id ensures IsDag(d, id) <==> IsDag(data, id)
      ensures IsDag(d, id) ==> DagAt(d, id) == DagAt(data, id)
    {
      KeyOwner(WeaveDag, id);
    }
  }

  lemma MergedOwned(data: State, mods: set<ModuleName>, now: int, m: ModuleName)
    ensures SameOwned(if m in mods then ModuleEnd(m, data, now).0 else data, Merged(data, mods, now), OwnerOfModule(m))
  {
    hide OwnerOf, ModuleEnd, OwnerOfModule, ModuleOwning;
    forall k | OwnerOf(k) == OwnerOfModule(m) && k in data
      ensures MergedValue(data, mods, now, k) == if m in mods then ModuleEnd(m, data, now).0[k] else data[k]
    {
      ModuleOwnsItsKeys(m, OwnerOf(k));
    }
  }

  lemma SameTaskRecords(data: State, d: State)
    requires SameOwned(data, d, Owner.Aap)
    ensures forall id :: IsTask(d, id) <==> IsTask(data, id)
    ensures forall id :: IsTask(d, id) ==> d[TaskKey(id)] == data[TaskKey(id)]
  {
    hide Prefix, OwnerOf, Key;
    forall id ensures IsTask(d, id) <==> IsTask(data, id)
      ensures IsTask(d, id) ==> d[TaskKey(id)] == data[TaskKey(id)]
    {
      KeyOwner(AapTask, id);
    }
  }

  // ----- what the end of a block does, told on the records

  /** Every event of the block was emitted by one of its modules. */
  lemma EventOrigin(data: State, mods: set<ModuleName>, now: int, out: seq<Event>, e: Event)
    requires multiset(out) == EventBag(data, mods, now)
    ensures e in out <==>
      || (AapMod in mods && e in AapEvents(data, now)) || (WeaveMod in mods && e in WeaveEvents(data, now))
      || (CapMod in mods && e in SweepEvents(data, now)) || (FiatMod in mods && e in FiatEvents(data))
  {
    hide AapEvents, WeaveEvents, SweepEvents, FiatEvents, AapEnd, WeaveEnd, SweepSpec;
    assert e in out <==> e in multiset(out);
  }

  /** The modules emit events of different kinds. */
  lemma EventKinds(data: State, now: int, e: Event)
    ensures e in AapEvents(data, now) ==> e.kind == TaskFailedEvent
    ensures e in WeaveEvents(data, now) ==> e.kind in {DagFailedEvent, DagCompletedEvent}
    ensures e in SweepEvents(data, now) ==> e.kind == CapabilityExpired
    ensures e in FiatEvents(data) ==> e.kind == PoolBelowSafety
  {
    hide Prefix, FailureEvents, EndEvents, EndEvent, Due, PoolOf, SafetyThreshold;
    FailureFromCandidate(Scan(data, Prefix(AapTask)), now, e);
    var cs := Scan(data, Prefix(WeaveDag));
    EventFromCandidate(cs, now, e);
    if e in WeaveEvents(data, now) {
      var i :| 0 <= i < |cs| && cs[i].value.DagV? && e in EndEvent(cs[i].value.dag, now);
      EventNamesDag(cs[i].value.dag, now, e);
    }
  }

  lemma EventOfKind(data: State, mods: set<ModuleName>, now: int, out: seq<Event>, e: Event)
    requires multiset(out) == EventBag(data, mods, now)
    ensures e.kind == TaskFailedEvent && AapMod in mods ==> (e in out <==> e in AapEvents(data, now))
    ensures e.kind in {DagFailedEvent, DagCompletedEvent} && WeaveMod in mods ==> (e in out <==> e in WeaveEvents(data, now))
    ensures e.kind == CapabilityExpired && CapMod in mods ==> (e in out <==> e in SweepEvents(data, now))
    ensures e.kind == PoolBelowSafety && FiatMod in mods ==> (e in out <==> e in FiatEvents(data))
  {
    hide AapEvents, WeaveEvents, SweepEvents, FiatEvents, EventBag;
    EventOrigin(data, mods, now, out, e);
    EventKinds(data, now, e);
  }

  lemma TokensEnd(data: State, mods: set<ModuleName>, now: int, out: seq<Event>)
    requires multiset(out) == EventBag(data, mods, now) && CapMod in mods
    ensures TokensSwept(data, Merged(data, mods, now), out, now)
  {
    hide SweepEvents, EventBag, SweepSpec, Merged, AapEnd, WeaveEnd, AapEvents, WeaveEvents, FiatEvents, SweptTo;
    SweepTold(data, now);
    MergedOwned(data, mods, now, CapMod);
    OtherOwnersKeepTokens(SweepSpec(data, now), Merged(data, mods, now));
    forall id ensures Event(CapabilityExpired, id) in out <==> Event(CapabilityExpired, id) in SweepEvents(data, now) {
      EventOfKind(data, mods, now, out, Event(CapabilityExpired, id));
    }
  }

  lemma DagsEnd(data: State, mods: set<ModuleName>, now: int, out: seq<Event>)
    requires WeaveInv(data) && multiset(out) == EventBag(data, mods, now) && WeaveMod in mods
    ensures RoundDone(data, Merged(data, mods, now), out, now)
  {
    hide WeaveInv, SweepEvents, EventBag, SweepSpec, Merged, AapEnd, WeaveEnd, AapEvents, WeaveEvents, FiatEvents, Rounded;
    WeaveRound(data, now);
    MergedOwned(data, mods, now, WeaveMod);
    SameDags(WeaveEnd(data, now), Merged(data, mods, now));
    forall id ensures Event(DagFailedEvent, id) in out <==> Event(DagFailedEvent, id) in WeaveEvents(data, now) {
      EventOfKind(data, mods, now, out, Event(DagFailedEvent, id));
    }
    forall id ensures Event(DagCompletedEvent, id) in out <==> Event(DagCompletedEvent, id) in WeaveEvents(data, now) {
      EventOfKind(data, mods, now, out, Event(DagCompletedEvent, id));
    }
  }

  lemma ChecksEnd(data: State, mods: set<ModuleName>, now: int, out: seq<Event>)
    requires TasksKeyed(data) && multiset(out) == EventBag(data, mods, now) && AapMod in mods
    ensures TasksChecked(data, Merged(data, mods, now), out, now)
  {
    hide TasksKeyed, SweepEvents, EventBag, SweepSpec, Merged, AapEnd, WeaveEnd, AapEvents, WeaveEvents, FiatEvents, Checked;
    TasksEnd(data, now);
    MergedOwned(data, mods, now, AapMod);
    SameTaskRecords(AapEnd(data, now), Merged(data, mods, now));
    forall id ensures Event(TaskFailedEvent, id) in out <==> Event(TaskFailedEvent, id) in AapEvents(data, now) {
      EventOfKind(data, mods, now, out, Event(TaskFailedEvent, id));
    }
  }

  /** The end of a block does the work of every registered module, and leaves the keys of the others
      alone. */
  lemma EndTold(data: State, mods: set<ModuleName>, now: int, out: seq<Event>)
    requires EndReady(data) && multiset(out) == EventBag(data, mods, now)
    ensures CapMod in mods ==> TokensSwept(data, Merged(data, mods, now), out, now)
    ensures WeaveMod in mods ==> RoundDone(data, Merged(data, mods, now), out, now)
    ensures AapMod in mods ==> TasksChecked(data, Merged(data, mods, now), out, now)
    ensures FiatMod in mods ==> PoolReported(data, out)
    ensures forall m :: m !in mods ==> SameOwned(data, Merged(data, mods, now), OwnerOfModule(m))
  {
    hide CapInv, WeaveInv, TasksKeyed, TokensSwept, RoundDone, TasksChecked, Merged, EventBag, FiatEvents;
    if CapMod in mods {
      TokensEnd(data, mods, now, out);
    }
    if WeaveMod in mods {
      DagsEnd(data, mods, now, out);
    }
    if AapMod in mods {
      ChecksEnd(data, mods, now, out);
    }
    if FiatMod in mods {
      PoolTold(data);
      EventOfKind(data, mods, now, out, Event(PoolBelowSafety, []));
    }
    forall m | m !in mods ensures SameOwned(data, Merged(data, mods, now), OwnerOfModule(m)) {
      MergedOwned(data, mods, now, m);
    }
  }

  /** When no stored token has a negative expiry, the due tokens are all that the end of a block changes. */
  lemma OnlyDueEnd(data: State, mods: set<ModuleName>, now: int, id: Bytes)
    requires CapInv(data) && CapMod in mods && IsToken(data, id)
    requires forall x :: IsToken(data, x) ==> TokenAt(data, x).expiresAt >= 0
    ensures IsToken(Merged(data, mods, now), id)
    ensures TokenAt(Merged(data, mods, now), id) ==
      if TokenAt(data, id).status == Unspent && 0 < TokenAt(data, id).expiresAt <= now
      then TokenAt(data, id).(status := Expired) else TokenAt(data, id)
  {
    hide CapInv, Marked, Expiring, Due, Merged, AapEnd, WeaveEnd, AapEvents, WeaveEvents, SweepEvents, FiatEvents;
    SweepWithoutNegatives(data, now);
    DueExpire(data, now, id);
    MarkedToken(data, Expiring(data, now), Expired, id);
    MergedOwned(data, mods, now, CapMod);
    OtherOwnersKeepTokens(SweepSpec(data, now), Merged(data, mods, now));
  }

  lemma OnlyDueAll(data: State, mods: set<ModuleName>, now: int)
    requires EndReady(data) && CapMod in mods
    ensures forall id :: IsToken(data, id) ==> IsToken(Merged(data, mods, now), id)
    ensures (forall x :: IsToken(data, x) ==> TokenAt(data, x).expiresAt >= 0) ==>
      forall id :: IsToken(data, id) ==>
        TokenAt(Merged(data, mods, now), id) ==
          if TokenAt(data, id).status == Unspent && 0 < TokenAt(data, id).expiresAt <= now
          then TokenAt(data, id).(status := Expired) else TokenAt(data, id)
  {
    hide CapInv, WeaveInv, TasksKeyed, Merged;
    var out := BlockEvents(data, mods, now);
    TokensEnd(data, mods, now, out);
    if forall x :: IsToken(data, x) ==> TokenAt(data, x).expiresAt >= 0 {
      forall id | IsToken(data, id)
        ensures TokenAt(Merged(data, mods, now), id) ==
          if TokenAt(data, id).status == Unspent && 0 < TokenAt(data, id).expiresAt <= now
          then TokenAt(data, id).(status := Expired) else TokenAt(data, id)
      {
        OnlyDueEnd(data, mods, now, id);
      }
    }
  }

  lemma BlockEvents(data: State, mods: set<ModuleName>, now: int) returns (out: seq<Event>)
    ensures multiset(out) == EventBag(data, mods, now)
  {
    hide AapEvents, WeaveEvents, SweepEvents, FiatEvents, AapEnd, WeaveEnd, SweepSpec;
    out := (if AapMod in mods then AapEvents(data, now) else []) + (if WeaveMod in mods then WeaveEvents(data, now) else [])
         + (if CapMod in mods then SweepEvents(data, now) else []) + (if FiatMod in mods then FiatEvents(data) else []);
  }

  /** After the sweep no token is due. */
  lemma NoneDue(data: State, d: State, out: seq<Event>, now: int)
    requires TokensSwept(data, d, out, now)
    ensures forall id :: IsToken(d, id) && TokenAt(d, id).status == Unspent ==>
      TokenAt(d, id).expiresAt == 0 || TokenAt(d, id).expiresAt > now
  {
    forall id | IsToken(d, id) && TokenAt(d, id).status == Unspent
      ensures TokenAt(d, id).expiresAt == 0 || TokenAt(d, id).expiresAt > now
    {
      assert SweptTo(TokenAt(data, id), TokenAt(d, id), now);
    }
  }

  /** After the round no graph runs past its timeout. */
  lemma NoneOverdue(data: State, d: State, out: seq<Event>, now: int)
    requires RoundDone(data, d, out, now)
    ensures forall id :: IsDag(d, id) && DagAt(d, id).status == DagRunning && DagAt(d, id).timeoutSec > 0 ==>
      now - DagAt(d, id).startedAt <= AsInt64(DagAt(d, id).timeoutSec)
  {
    forall id | IsDag(d, id) && DagAt(d, id).status == DagRunning && DagAt(d, id).timeoutSec > 0
      ensures now - DagAt(d, id).startedAt <= AsInt64(DagAt(d, id).timeoutSec)
    {
      assert Rounded(DagAt(data, id), DagAt(d, id), now);
    }
  }

  /** After the check no executing task is silent for more than 180 seconds. */
  lemma NoneSilent(data: State, d: State, out: seq<Event>, now: int)
    requires TasksChecked(data, d, out, now)
    ensures forall id :: IsTask(d, id) && d[TaskKey(id)].task.status == TaskExecuting ==>
      now - d[TaskKey(id)].task.lastHeartbeat <= 180
  {
    forall id | IsTask(d, id) && d[TaskKey(id)].task.status == TaskExecuting
      ensures now - d[TaskKey(id)].task.lastHeartbeat <= 180
    {
      assert Checked(data[TaskKey(id)].task, d[TaskKey(id)].task, now);
    }
  }

  method EndModule(store: Store, m: ModuleName, now: int) returns (events: seq<Event>)
    requires m == CapMod ==> CapInv(store.data)
    requires m == WeaveMod ==> WeaveInv(store.data)
    requires m == AapMod ==> TasksKeyed(store.data)
    modifies store`data
    ensures (store.data, events) == ModuleEnd(m, old(store.data), now)
  {
    hide CapInv, WeaveInv, TasksKeyed, AapEvents, WeaveEvents, SweepEvents, FiatEvents, AapEnd, WeaveEnd, SweepSpec;
    events := [];
    match m {
      case AapMod => events := EndBlockAap(store, now);
      case WeaveMod => events := EndBlockWeave(store, now);
      case CapMod =>
        IndexIsSound(store.data);
        var failed;
        events, failed := ExpireAtTime(store, now);
      case FiatMod => events := EndBlockFiat(store);
      case _ =>
    }
  }

  class Registry {
    var modules: set<ModuleName>

    constructor ()
      ensures modules == {}
    {
      modules := {};
    }

    /** A module can be registered once. */
    method Register(m: ModuleName) returns (ok: bool)
      modifies this
      ensures ok <==> m !in old(modules)
      ensures modules == old(modules) + {m}
    {
      ok := m !in modules;
      modules := modules + {m};
    }

    method Unregister(m: ModuleName)
      modifies this
      ensures modules == old(modules) - {m}
    {
      modules := modules - {m};
    }

    /** Ends the block in every registered module. The state is determined, and so are the events up to
        their order, although the order of the modules is arbitrary. */
    method EndBlock(store: Store, now: int) returns (out: seq<Event>)
      requires EndReady(store.data)
      modifies store`data
      ensures store.data == Merged(old(store.data), modules, now)
      ensures multiset(out) == EventBag(old(store.data), modules, now)
      // Every registered module does its work, told on the records it owns; nobody else's change.
      ensures CapMod in modules ==> TokensSwept(old(store.data), store.data, out, now)
      ensures CapMod in modules ==> forall id :: IsToken(store.data, id) && TokenAt(store.data, id).status == Unspent ==>
        TokenAt(store.data, id).expiresAt == 0 || TokenAt(store.data, id).expiresAt > now
      ensures CapMod in modules && (forall x :: IsToken(old(store.data), x) ==> TokenAt(old(store.data), x).expiresAt >= 0) ==>
        forall id :: IsToken(old(store.data), id) ==>
          TokenAt(store.data, id) ==
            if TokenAt(old(store.data), id).status == Unspent && 0 < TokenAt(old(store.data), id).expiresAt <= now
            then TokenAt(old(store.data), id).(status := Expired) else TokenAt(old(store.data), id)
      ensures WeaveMod in modules ==> RoundDone(old(store.data), store.data, out, now)
      ensures WeaveMod in modules ==> forall id :: IsDag(store.data, id) && DagAt(store.data, id).status == DagRunning &&
                                                   DagAt(store.data, id).timeoutSec > 0 ==>
        now - DagAt(store.data, id).startedAt <= AsInt64(DagAt(store.data, id).timeoutSec)
      ensures AapMod in modules ==> TasksChecked(old(store.data), store.data, out, now)
      ensures AapMod in modules ==> forall id :: IsTask(store.data, id) && store.data[TaskKey(id)].task.status == TaskExecuting ==>
        now - store.data[TaskKey(id)].task.lastHeartbeat <= 180
      ensures FiatMod in modules ==> PoolReported(old(store.data), out)
      ensures forall m :: m !in modules ==> SameOwned(old(store.data), store.data, OwnerOfModule(m))
    {
      hide EndReady, Merged, EventBag, ModuleEnd, CapInv, WeaveInv, TasksKeyed, OwnerOfModule, SameOwned,
           TokensSwept, RoundDone, TasksChecked, PoolReported;
      ghost var data := store.data;
      var rest := modules;
      out := [];
      MergedNone(data, now);
      BagNone(data, now);
      assert modules - rest == {};
      while rest != {}
        invariant rest <= modules
        invariant store.data == Merged(data, modules - rest, now)
        invariant multiset(out) == EventBag(data, modules - rest, now)
        decreases |rest|
      {
        var m :| m in rest;
        ghost var done := modules - rest;
        assert modules - (rest - {m}) == done + {m};
        StillOwn(data, done, now, m);
        ReadyAlone(data, store.data, m);
        MergeOne(data, done, now, m);
        BagGrows(data, done, now, m);
        var events := EndModule(store, m, now);
        out := out + events;
        rest := rest - {m};
      }
      assert modules - rest == modules;
      EndTold(data, modules, now, out);
      if CapMod in modules {
        NoneDue(data, store.data, out, now);
        OnlyDueAll(data, modules, now);
      }
      if WeaveMod in modules {
        NoneOverdue(data, store.data, out, now);
      }
      if AapMod in modules {
        NoneSilent(data, store.data, out, now);
      }
    }
  }

  lemma MergedNone(data: State, now: int)
    ensures Merged(data, {}, now) == data
  {
  }

  lemma BagNone(data: State, now: int)
    ensures EventBag(data, {}, now) == multiset{}
  {
  }
}
