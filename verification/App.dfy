/** The application: the store, the registered modules, and the block method. */
module App {
  import opened ByteStrings
  import opened Engine
  import opened Records
  import opened Nonce
  import opened CapGraph
  import opened CapHandlers
  import opened CapSweep
  import opened CapInvariant
  import opened CapSteps
  import opened Weave
  import opened Aap
  import opened Fiat
  import opened FiatRuns
  import opened Router
  import opened Lifecycle
  import opened Chain
  import opened Audit

  class GasContext {
    const limit: nat
    var used: nat

    constructor (limit: nat)
      ensures this.limit == limit && used == 0
    {
      this.limit := limit;
      used := 0;
    }

    method Consume(amount: nat) returns (ok: bool)
      modifies this
      ensures used == old(used) + amount && (ok <==> used <= limit)
    {
      used := used + amount;
      ok := used <= limit;
    }
  }

  class Application {
    const store: Store
    const registry: Registry
    var lastFed: seq<KV<Value>>

    constructor (store: Store, registry: Registry)
      ensures this.store == store && this.registry == registry && lastFed == []
    {
      this.store, this.registry := store, registry;
      lastFed := [];
    }

    /** Dispatches to the handler of the transaction's module. */
    method Execute(host: Host, ctx: Ctx, e: Envelope) returns (r: Outcome)
      requires CapInv(store.data) && WeaveInv(store.data) && FiatInv(store.data)
      modifies store`data
      ensures (store.data, r) == ExecuteSpec(host, ctx, registry.modules, old(store.data), e)
      ensures ModuleOf(e.call).None? || ModuleOf(e.call).value !in registry.modules ==>
        r == Fail(CODE_MODULE) && store.data == old(store.data)
      ensures e.call.CapCall? && CapMod in registry.modules ==>
        (store.data, r) == CapSpec(old(store.data), ctx, e.sender, e.nonce, e.call.cap)
      ensures e.call.WeaveCall? && WeaveMod in registry.modules ==>
        (store.data, r) == WeaveSpec(old(store.data), ctx, e.sender, e.call.weave)
      ensures e.call.FiatCall? && FiatMod in registry.modules ==>
        (store.data, r) == FiatSpec(old(store.data), ctx, e.sender, e.call.fiat)
    {
      hide CapInv, WeaveInv, CapSpec, WeaveSpec, FiatSpec;
      var m := ModuleOf(e.call);
      if m.None? || m.value !in registry.modules {
        return Fail(CODE_MODULE);
      }
      match e.call {
        case CapCall(op) =>
          IndexIsSound(store.data);
          r := ExecuteCap(store, ctx, e.sender, e.nonce, op);
        case WeaveCall(op) => r := ExecuteWeave(store, ctx, e.sender, op);
        case FiatCall(op) => r := ExecuteFiat(store, ctx, e.sender, op);
        case OtherCall(other, _) =>
          if other in {CapMod, WeaveMod, FiatMod} {
            return Fail(CODE_MODULE);
          }
          var (d, o) := host.foreign(store.data, e);
          store.data := d;
          r := o;
        case UnknownAction(_) => r := Fail(CODE_MODULE);
      }
    }

    /** The gas for the signature and for the size of the payload. */
    method ChargeBase(e: Envelope) returns (ok: bool, used: nat)
      ensures ok <==> BaseGas(e) <= e.gasLimit
      ensures ok ==> used == BaseGas(e)
    {
      var gas := new GasContext(e.gasLimit);
      ok := gas.Consume(1000);
      if !ok {
        return false, gas.used;
      }
      ok := gas.Consume((e.payloadLen + 1023) / 1024 * 10);
      used := gas.used;
    }

    /** The checks of one transaction in order, its execution, and the advance of the nonce. */
    method Deliver(host: Host, b: Block, raw: RawTx) returns (r: Outcome)
      requires CapInv(store.data) && WeaveInv(store.data) && FiatInv(store.data)
      modifies store`data
      ensures (store.data, r) == DeliverSpec(host, b, registry.modules, old(store.data), raw)
      // Nothing but a well-formed, signed, timely transaction with the stored nonce and enough gas acts.
      ensures (r.Ok? || store.data != old(store.data)) ==>
        raw.Some? && Admissible(host, b, raw.value, NonceOf(old(store.data), raw.value.sender))
      // And every such transaction is executed: it succeeds, and moves its sender's nonce on, exactly
      // when its handler does.
      ensures raw.Some? && Admissible(host, b, raw.value, NonceOf(old(store.data), raw.value.sender)) ==>
        Acts(host, b, registry.modules, old(store.data), raw.value, store.data, r)
    {
      hide CapInv, WeaveInv, FiatInv, DeliverSpec, ExecuteSpec, WithNonce, NonceOf, Admissible, Acts, ValidateBasic,
           BaseGas, ModuleOf, CtxOf;
      DeliveredIs(host, b, registry.modules, store.data, raw);
      OnlyAdmittedActs(host, b, registry.modules, store.data, raw);
      if raw.Some? && Admissible(host, b, raw.value, NonceOf(store.data, raw.value.sender)) {
        AdmissibleActs(host, b, registry.modules, store.data, raw.value);
      }
      if raw.None? {
        return Fail(CODE_DECODE);
      }
      var e := raw.value;
      if !ValidateBasic(e) {
        return Fail(CODE_DECODE);
      }
      if e.timeoutHeight > 0 && b.height > e.timeoutHeight {
        return Fail(CODE_DECODE);
      }
      if !host.verify(e) {
        return Fail(CODE_SIGNATURE);
      }
      var expected := GetNonce(store, e.sender);
      if e.nonce != expected {
        return Fail(CODE_NONCE);
      }
      var ok, used := ChargeBase(e);
      if !ok {
        return Fail(CODE_GAS);
      }
      r := Execute(host, CtxOf(host, b), e);
      match r {
        case Fail(_) =>
        case Ok(cost, events) =>
          SetNonce(store, e.sender, expected + 1);
          r := Ok(cost + used, events);
      }
    }

    /** Delivers the transactions of a block one after another: one result each, in order. */
    method DeliverBlock(host: Host, b: Block, ghost pres: set<Bytes>) returns (results: seq<Outcome>)
      requires ForeignOk(host) && ChainInv(host, pres, store.data) && CollisionFree(host.digest, pres)
      requires AllHashed(pres, b.txs) && NonceRoom(store.data, |b.txs|)
      modifies store`data
      ensures |results| == |b.txs|
      ensures (store.data, results) == DeliverAll(host, b, registry.modules, old(store.data), b.txs)
      ensures ChainInv(host, pres, store.data)
      ensures forall i :: 0 <= i < |results| && results[i].Ok? ==>
        b.txs[i].Some? && host.verify(b.txs[i].value) && |b.txs[i].value.sender| == 32
    {
      hide CapInv, WeaveInv, FiatInv, TasksKeyed, DeliverSpec, OriginsOk, ForeignOk, CollisionFree, AllHashed, NonceRoom,
           NonceOf, Acts;
      ghost var data := store.data;
      ghost var mods := registry.modules;
      results := [];
      var i := 0;
      while i < |b.txs|
        invariant 0 <= i <= |b.txs|
        invariant (store.data, results) == DeliverAll(host, b, mods, data, b.txs[..i])
        invariant forall j :: 0 <= j < i && results[j].Ok? ==>
          b.txs[j].Some? && host.verify(b.txs[j].value) && |b.txs[j].value.sender| == 32
      {
        PrefixDelivered(host, pres, b, mods, data, i);
        assert b.txs[..i + 1][..i] == b.txs[..i];
        var r := Deliver(host, b, b.txs[i]);
        results := results + [r];
        i := i + 1;
      }
      assert b.txs[..i] == b.txs;
      PrefixDelivered(host, pres, b, mods, data, i);
    }

    /** One result per transaction, in order; then the end of the block in every module; then the
        commit, which feeds the ordered entries to the hash. */
    method FinalizeBlock(host: Host, b: Block, ghost pres: set<Bytes>) returns (results: seq<Outcome>, events: seq<Event>)
      requires ForeignOk(host) && ChainInv(host, pres, store.data) && CollisionFree(host.digest, pres)
      requires AllHashed(pres, b.txs) && NonceRoom(store.data, |b.txs|)
      modifies this, store
      ensures |results| == |b.txs|
      ensures results == DeliverAll(host, b, registry.modules, old(store.data), b.txs).1
      ensures store.data == AfterBlock(host, registry.modules, old(store.data), b)
      ensures forall i :: 0 <= i < |results| && results[i].Ok? ==>
        b.txs[i].Some? && host.verify(b.txs[i].value) && |b.txs[i].value.sender| == 32
      ensures multiset(events) ==
        EventBag(DeliverAll(host, b, registry.modules, old(store.data), b.txs).0, registry.modules, b.now)
      // The end of the block, told on the records: no token is left due, no graph running past its
      // timeout, no executing task silent, and every expiry, failure and completion has its event.
      ensures CapMod in registry.modules ==> forall id :: IsToken(store.data, id) && TokenAt(store.data, id).status == Unspent ==>
        TokenAt(store.data, id).expiresAt == 0 || TokenAt(store.data, id).expiresAt > b.now
      ensures WeaveMod in registry.modules ==>
        forall id :: IsDag(store.data, id) && DagAt(store.data, id).status == DagRunning && DagAt(store.data, id).timeoutSec > 0 ==>
          b.now - DagAt(store.data, id).startedAt <= AsInt64(DagAt(store.data, id).timeoutSec)
      ensures AapMod in registry.modules ==>
        forall id :: IsTask(store.data, id) && store.data[TaskKey(id)].task.status == TaskExecuting ==>
          b.now - store.data[TaskKey(id)].task.lastHeartbeat <= 180
      ensures var before := DeliverAll(host, b, registry.modules, old(store.data), b.txs).0;
        && (CapMod in registry.modules ==> TokensSwept(before, store.data, events, b.now))
        && (WeaveMod in registry.modules ==> RoundDone(before, store.data, events, b.now))
        && (AapMod in registry.modules ==> TasksChecked(before, store.data, events, b.now))
        && (FiatMod in registry.modules ==> PoolReported(before, events))
      ensures lastFed == Scan(store.data, []) && store.version == old(store.version) + 1
    {
      hide ForeignOk, CollisionFree, AllHashed, NonceRoom, DeliverAll, CapInv, WeaveInv, FiatInv, TasksKeyed, OriginsOk,
           EventBag, Merged, Scan, TokensSwept, RoundDone, TasksChecked, PoolReported, SameOwned, OwnerOfModule;
      results := DeliverBlock(host, b, pres);
      events := registry.EndBlock(store, b.now);
      var version;
      lastFed, version := store.Commit();
    }
  }

  lemma PrefixDelivered(host: Host, pres: set<Bytes>, b: Block, mods: set<ModuleName>, data: State, i: nat)
    requires ForeignOk(host) && ChainInv(host, pres, data) && CollisionFree(host.digest, pres)
    requires AllHashed(pres, b.txs) && NonceRoom(data, |b.txs|) && i <= |b.txs|
    ensures ChainInv(host, pres, DeliverAll(host, b, mods, data, b.txs[..i]).0)
  {
    hide ChainInv, ForeignOk, CollisionFree, NonceOf, DeliverAll, Hashed, Evolves;
    DeliverAllKeeps(host, pres, b, mods, data, b.txs[..i]);
  }
}
