/** Who did what, over whole runs: only signed transactions have an effect, and every change of a
    token goes back to a successful transaction of the one entitled to it. */
module Audit {
  import opened ByteStrings
  import opened Codec
  import opened Keys
  import opened Engine
  import opened Records
  import opened Nonce
  import opened CapGraph
  import opened CapOrigins
  import opened CapSweep
  import opened CapHandlers
  import opened CapInvariant
  import opened CapSteps
  import opened CapAuthority
  import opened Weave
  import opened WeaveRuns
  import opened Aap
  import opened Fiat
  import opened FiatRuns
  import opened Locality
  import opened Router
  import opened Lifecycle
  import opened Chain

  // ----- only signed transactions have an effect

  /** A transaction that succeeds, or changes anything, is well formed and signed by its sender, carries
      its sender's stored nonce, is in time, can pay for its own size and names a registered module. */
  lemma OnlyAdmittedActs(host: Host, b: Block, mods: set<ModuleName>, data: State, raw: RawTx)
    ensures var (d, r) := DeliverSpec(host, b, mods, data, raw);
      r.Ok? || d != data ==>
        && raw.Some? && Admissible(host, b, raw.value, NonceOf(data, raw.value.sender))
        && ModuleOf(raw.value.call).Some? && ModuleOf(raw.value.call).value in mods
  {
    hide NonceOf, CapSpec, WeaveSpec, FiatSpec, WithNonce;
  }

  /** Conversely every admissible transaction is executed. */
  lemma AdmissibleActs(host: Host, b: Block, mods: set<ModuleName>, data: State, e: Envelope)
    requires Admissible(host, b, e, NonceOf(data, e.sender))
    ensures var (d, r) := DeliverSpec(host, b, mods, data, Some(e)); Acts(host, b, mods, data, e, d, r)
  {
    hide ExecuteSpec, WithNonce, NonceOf;
  }

  /** A refused transaction fails and changes nothing; any other is executed. */
  lemma DeliveredIs(host: Host, b: Block, mods: set<ModuleName>, data: State, raw: RawTx)
    ensures var refusal := Refusal(host, b.height, data, raw);
      DeliverSpec(host, b, mods, data, raw) ==
        if refusal.Some? then (data, Fail(refusal.value))
        else
          var (x, o) := ExecuteSpec(host, CtxOf(host, b), mods, data, raw.value);
          if o.Ok? then (WithNonce(x, raw.value.sender, NonceOf(data, raw.value.sender) + 1), Ok(o.gas + BaseGas(raw.value), o.events))
          else (x, o)
  {
    hide ExecuteSpec, WithNonce, NonceOf;
  }

  predicate Signed(host: Host, raw: RawTx) { raw.Some? && host.verify(raw.value) }

  function SignedOnly(host: Host, txs: seq<RawTx>): seq<RawTx> {
    if txs == [] then []
    else SignedOnly(host, txs[..|txs| - 1]) + (if Signed(host, txs[|txs| - 1]) then [txs[|txs| - 1]] else [])
  }

  /** Transactions that are not signed might as well be missing from a block. */
  lemma {:induction false} UnsignedDropOut(host: Host, b: Block, mods: set<ModuleName>, data: State, txs: seq<RawTx>)
    ensures DeliverAll(host, b, mods, data, SignedOnly(host, txs)).0 == DeliverAll(host, b, mods, data, txs).0
    decreases |txs|
  {
    hide DeliverSpec, ModuleOf, NonceOf;
    if txs != [] {
      var n := |txs| - 1;
      var s, d := SignedOnly(host, txs[..n]), DeliverAll(host, b, mods, data, txs[..n]).0;
      UnsignedDropOut(host, b, mods, data, txs[..n]);
      OnlyAdmittedActs(host, b, mods, d, txs[n]);
      if Signed(host, txs[n]) {
        assert (s + [txs[n]])[..|s|] == s;
        assert DeliverAll(host, b, mods, data, s + [txs[n]]).0 == DeliverSpec(host, b, mods, d, txs[n]).0;
      } else {
        assert s + [] == s;
      }
    }
  }

  // ----- the successful transactions of a run

  function OkTxs(txs: seq<RawTx>, results: seq<Outcome>): seq<Envelope>
    requires |txs| == |results|
  {
    if txs == [] then []
    else
      var n := |txs| - 1;
      OkTxs(txs[..n], results[..n]) + (if results[n].Ok? && txs[n].Some? then [txs[n].value] else [])
  }

  ghost function RunOks(host: Host, mods: set<ModuleName>, data: State, blocks: seq<Block>): seq<Envelope>
    decreases |blocks|
  {
    if blocks == [] then []
    else
      var last := blocks[|blocks| - 1];
      var before := AfterBlocks(host, mods, data, blocks[..|blocks| - 1]);
      RunOks(host, mods, data, blocks[..|blocks| - 1]) + OkTxs(last.txs, DeliverAll(host, last, mods, before, last.txs).1)
  }

  lemma {:induction false} BlockOksSigned(host: Host, b: Block, mods: set<ModuleName>, data: State, txs: seq<RawTx>, e: Envelope)
    requires e in OkTxs(txs, DeliverAll(host, b, mods, data, txs).1)
    ensures host.verify(e) && |e.sender| == 32 && 1000 + (e.payloadLen + 1023) / 1024 * 10 <= e.gasLimit
    decreases |txs|
  {
    hide DeliverSpec, ModuleOf, NonceOf;
    var n := |txs| - 1;
    var (d, rs) := DeliverAll(host, b, mods, data, txs[..n]);
    var r := DeliverSpec(host, b, mods, d, txs[n]).1;
    assert (rs + [r])[..n] == rs;
    if e in OkTxs(txs[..n], rs) {
      BlockOksSigned(host, b, mods, data, txs[..n], e);
    } else {
      OnlyAdmittedActs(host, b, mods, d, txs[n]);
    }
  }

  /** Over every run of blocks, whatever succeeded was signed by its sender and paid for. */
  lemma {:induction false} RunOksSigned(host: Host, mods: set<ModuleName>, data: State, blocks: seq<Block>, e: Envelope)
    requires e in RunOks(host, mods, data, blocks)
    ensures host.verify(e) && |e.sender| == 32 && 1000 + (e.payloadLen + 1023) / 1024 * 10 <= e.gasLimit
    decreases |blocks|
  {
    hide DeliverAll, AfterBlock, OkTxs;
    var n := |blocks| - 1;
    if e in RunOks(host, mods, data, blocks[..n]) {
      RunOksSigned(host, mods, data, blocks[..n], e);
    } else {
      BlockOksSigned(host, blocks[n], mods, AfterBlocks(host, mods, data, blocks[..n]), blocks[n].txs, e);
    }
  }

  // ----- every change of a token is accounted for

  predicate RevokedBy(e: Envelope, issuer: Bytes) {
    e.call.CapCall? && e.call.cap.RevokeCap? && e.sender == issuer
  }

  predicate SpentBy(e: Envelope, id: Bytes, holder: Bytes) {
    e.call == CapCall(SpendCap(id)) && e.sender == holder
  }

  /** t is the issuer's own root, or was delegated by the holder of its parent. */
  ghost predicate MadeBy(e: Envelope, d: State, t: Token) {
    e.call.CapCall? &&
    match e.call.cap
    case MintCap(holder, _, _, _, _, _, _, _) => t.parent == [] && t.issuer == e.sender && t.holder == holder
    case DelegateCap(id, newHolder, _, _, _) =>
      && t.parent == id && t.holder == newHolder
      && IsToken(d, id) && TokenAt(d, id).holder == e.sender && TokenAt(d, id).issuer == t.issuer
    case _ => false
  }

  ghost predicate RevokesAccounted(data: State, d: State, oks: seq<Envelope>) {
    forall id :: IsToken(d, id) && TokenAt(d, id).status == Revoked &&
                 !(IsToken(data, id) && TokenAt(data, id).status == Revoked) ==>
      exists e :: e in oks && RevokedBy(e, TokenAt(d, id).issuer)
  }

  function UsedOf(data: State, id: Bytes): nat { if IsToken(data, id) then TokenAt(data, id).usedCount else 0 }

  ghost predicate SpendsAccounted(data: State, d: State, oks: seq<Envelope>) {
    forall id :: IsToken(d, id) && TokenAt(d, id).usedCount != UsedOf(data, id) ==>
      exists e :: e in oks && SpentBy(e, id, TokenAt(d, id).holder)
  }

  ghost predicate MakesAccounted(data: State, d: State, oks: seq<Envelope>) {
    forall id :: IsToken(d, id) && !IsToken(data, id) ==> exists e :: e in oks && MadeBy(e, d, TokenAt(d, id))
  }

  /** Each revoked, each used and each new token goes back to a transaction among oks: a revocation by
      the token's own issuer, a spend by its holder, a mint by its issuer or a delegation by the holder
      of its parent. */
  ghost predicate Accounted(data: State, d: State, oks: seq<Envelope>) {
    Evolves(data, d) && RevokesAccounted(data, d, oks) && SpendsAccounted(data, d, oks) && MakesAccounted(data, d, oks)
  }

  lemma AccountedJoins(a: State, b: State, c: State, o: seq<Envelope>, p: seq<Envelope>)
    requires Accounted(a, b, o) && Accounted(b, c, p)
    ensures Accounted(a, c, o + p)
  {
    hide RevokedBy, SpentBy, MadeBy;
    EvolvesTransitive(a, b, c);
    forall id | IsToken(c, id) && TokenAt(c, id).status == Revoked && !(IsToken(a, id) && TokenAt(a, id).status == Revoked)
      ensures exists e :: e in o + p && RevokedBy(e, TokenAt(c, id).issuer)
    {
      var e :| (e in o || e in p) && RevokedBy(e, TokenAt(c, id).issuer);
      assert e in o + p;
    }
    forall id | IsToken(c, id) && TokenAt(c, id).usedCount != UsedOf(a, id)
      ensures exists e :: e in o + p && SpentBy(e, id, TokenAt(c, id).holder)
    {
      var e :| (e in o || e in p) && SpentBy(e, id, TokenAt(c, id).holder);
      assert e in o + p;
    }
    forall id | IsToken(c, id) && !IsToken(a, id) ensures exists e :: e in o + p && MadeBy(e, c, TokenAt(c, id)) {
      if IsToken(b, id) {
        var e :| e in o && MadeBy(e, b, TokenAt(b, id));
        MadeStays(e, b, c, TokenAt(b, id), TokenAt(c, id));
        assert e in o + p;
      } else {
        var e :| e in p && MadeBy(e, c, TokenAt(c, id));
        assert e in o + p;
      }
    }
  }

  lemma MadeStays(e: Envelope, b: State, c: State, t: Token, u: Token)
    requires MadeBy(e, b, t) && Evolves(b, c) && SameGrant(t, u)
    ensures MadeBy(e, c, u)
  {
  }

  ghost predicate TokensStay(data: State, d: State) {
    && (forall id :: IsToken(d, id) <==> IsToken(data, id))
    && (forall id :: IsToken(data, id) ==> TokenAt(d, id) == TokenAt(data, id))
  }

  lemma StayAccounted(data: State, d: State, oks: seq<Envelope>)
    requires TokensStay(data, d)
    ensures Accounted(data, d, oks)
  {
  }

  lemma CapAccounted(host: Host, pres: set<Bytes>, ctx: Ctx, data: State, e: Envelope)
    requires ChainInv(host, pres, data) && CollisionFree(host.digest, pres) && Hashed(pres, Some(e))
    requires ctx.digest == host.digest && e.call.CapCall? && |e.sender| == 32 && e.nonce == NonceOf(data, e.sender)
    ensures var (d, r) := CapSpec(data, ctx, e.sender, e.nonce, e.call.cap);
      Accounted(data, d, if r.Ok? then [e] else [])
  {
    hide CapInv, WeaveInv, FiatInv, TasksKeyed, CapSpec, Preimage, Prefix, OwnerOf, CollisionFree;
    var op := e.call.cap;
    var (d, r) := CapSpec(data, ctx, e.sender, e.nonce, op);
    var oks := if r.Ok? then [e] else [];
    if MakesToken(op) && r.Ok? {
      MakesFromStored(data, ctx, e, op);
      FreshId(data, host.digest, pres, NewOrigin(e.sender, e.nonce, op));
    }
    CapStep(data, ctx, e.sender, e.nonce, op);
    forall id | IsToken(data, id)
      ensures IsToken(d, id) && Authorised(TokenAt(data, id), TokenAt(d, id), ctx.now, e.sender, op, r.Ok?)
      ensures TokenAt(data, id).id == id
    {
      ChangesAuthorised(data, ctx, e.sender, e.nonce, op, id);
      UsageOfInv(data, id);
    }
    forall id | IsToken(d, id) && !IsToken(data, id)
      ensures r.Ok? && MadeAsAsked(data, TokenAt(d, id), ctx.now, e.sender, op)
    {
      NewTokenAsAsked(data, ctx, e.sender, e.nonce, op, id);
    }
    assert r.Ok? ==> e in oks;
    AuthorisedAccounted(data, d, ctx.now, e, r.Ok?, oks);
  }

  lemma AuthorisedAccounted(data: State, d: State, now: int, e: Envelope, ok: bool, oks: seq<Envelope>)
    requires e.call.CapCall? && Evolves(data, d) && (ok ==> e in oks)
    requires forall id :: IsToken(data, id) ==>
      && TokenAt(data, id).id == id && IsToken(d, id)
      && Authorised(TokenAt(data, id), TokenAt(d, id), now, e.sender, e.call.cap, ok)
    requires forall id :: IsToken(d, id) && !IsToken(data, id) ==>
      ok && MadeAsAsked(data, TokenAt(d, id), now, e.sender, e.call.cap)
    ensures Accounted(data, d, oks)
  {
    forall id | IsToken(d, id) && TokenAt(d, id).status == Revoked && !(IsToken(data, id) && TokenAt(data, id).status == Revoked)
      ensures e in oks && RevokedBy(e, TokenAt(d, id).issuer)
    {
    }
    forall id | IsToken(d, id) && TokenAt(d, id).usedCount != UsedOf(data, id)
      ensures e in oks && SpentBy(e, id, TokenAt(d, id).holder)
    {
    }
    forall id | IsToken(d, id) && !IsToken(data, id) ensures e in oks && MadeBy(e, d, TokenAt(d, id)) {
    }
  }

  lemma ExecuteAccounted(host: Host, pres: set<Bytes>, ctx: Ctx, mods: set<ModuleName>, data: State, e: Envelope)
    requires ForeignOk(host) && ChainInv(host, pres, data) && CollisionFree(host.digest, pres) && Hashed(pres, Some(e))
    requires ctx.digest == host.digest && |e.sender| == 32 && e.nonce == NonceOf(data, e.sender)
    ensures var (d, r) := ExecuteSpec(host, ctx, mods, data, e); Accounted(data, d, if r.Ok? then [e] else [])
  {
    hide CapInv, WeaveInv, FiatInv, TasksKeyed, ForeignOk, CollisionFree, CapSpec, WeaveSpec, FiatSpec, Accounted, SameOwned, TokensStay;
    var (d, r) := ExecuteSpec(host, ctx, mods, data, e);
    if e.call.CapCall? && CapMod in mods {
      CapAccounted(host, pres, ctx, data, e);
    } else {
      OthersStay(host, ctx, mods, data, e);
      StayAccounted(data, d, if r.Ok? then [e] else []);
    }
  }

  lemma OthersStay(host: Host, ctx: Ctx, mods: set<ModuleName>, data: State, e: Envelope)
    requires ForeignOk(host) && !(e.call.CapCall? && CapMod in mods)
    ensures TokensStay(data, ExecuteSpec(host, ctx, mods, data, e).0)
  {
    hide CapSpec, WeaveSpec, FiatSpec, Prefix, OwnerOf;
    match e.call {
      case WeaveCall(op) =>
        var d := WeaveSpec(data, ctx, e.sender, op).0;
        WeaveWritesOwn(data, ctx, e.sender, op);
        OthersSame(data, d, Owner.Weave, Owner.Cap);
        OtherOwnersKeepTokens(data, d);
      case FiatCall(op) =>
        var d := FiatSpec(data, ctx, e.sender, op).0;
        FiatWritesOwn(data, ctx, e.sender, op);
        OthersSame(data, d, Owner.Fiat, Owner.Cap);
        OtherOwnersKeepTokens(data, d);
      case OtherCall(_, _) =>
        assert ForeignStep(data, host.foreign(data, e).0);
        assert Modelled(Owner.Cap);
        OtherOwnersKeepTokens(data, host.foreign(data, e).0);
      case _ =>
    }
  }

  lemma NonceWriteStays(data: State, pub: Bytes, n: nat)
    ensures TokensStay(data, WithNonce(data, pub, n))
  {
    hide Prefix, OwnerOf, Hex, BigEndian;
    KeyOwner(AccNonce, Hex(pub));
    WriteTouchesOnly(data, NonceKey(pub), Word(BigEndian(n % TWO64, 8)), Owner.Acc);
    OthersSame(data, WithNonce(data, pub, n), Owner.Acc, Owner.Cap);
    OtherOwnersKeepTokens(data, WithNonce(data, pub, n));
  }

  lemma DeliverAccounted(host: Host, pres: set<Bytes>, b: Block, mods: set<ModuleName>, data: State, raw: RawTx)
    requires ForeignOk(host) && ChainInv(host, pres, data) && CollisionFree(host.digest, pres) && Hashed(pres, raw)
    ensures var (d, r) := DeliverSpec(host, b, mods, data, raw);
      Accounted(data, d, if r.Ok? && raw.Some? then [raw.value] else [])
  {
    hide ChainInv, ForeignOk, CollisionFree, ExecuteSpec, WithNonce, NonceOf, Hashed, Accounted, TokensStay;
    var (d, r) := DeliverSpec(host, b, mods, data, raw);
    if Refusal(host, b.height, data, raw).None? {
      var e := raw.value;
      var x := ExecuteSpec(host, CtxOf(host, b), mods, data, e).0;
      ExecuteAccounted(host, pres, CtxOf(host, b), mods, data, e);
      if r.Ok? {
        NonceWriteStays(x, e.sender, NonceOf(data, e.sender) + 1);
        StayAccounted(x, d, []);
        AccountedJoins(data, x, d, [e], []);
        assert [e] + [] == [e];
      }
    } else {
      assert TokensStay(data, data) by {
        SelfStays(data);
      }
      StayAccounted(data, data, []);
    }
  }

  lemma SelfStays(data: State)
    ensures TokensStay(data, data)
  {
  }

  lemma {:induction false} DeliverAllAccounted(host: Host, pres: set<Bytes>, b: Block, mods: set<ModuleName>,
    data: State, txs: seq<RawTx>)
    requires ForeignOk(host) && ChainInv(host, pres, data) && CollisionFree(host.digest, pres) && AllHashed(pres, txs)
    requires NonceRoom(data, |txs|)
    ensures var (d, rs) := DeliverAll(host, b, mods, data, txs); Accounted(data, d, OkTxs(txs, rs))
    decreases |txs|
  {
    hide ChainInv, ForeignOk, CollisionFree, DeliverSpec, NonceOf, Hashed, Accounted, TokensStay;
    if txs == [] {
      SelfStays(data);
      StayAccounted(data, data, []);
    } else {
      var n := |txs| - 1;
      var (d, rs) := DeliverAll(host, b, mods, data, txs[..n]);
      DeliverAllAccounted(host, pres, b, mods, data, txs[..n]);
      DeliverAllKeeps(host, pres, b, mods, data, txs[..n]);
      DeliverAccounted(host, pres, b, mods, d, txs[n]);
      var (x, r) := DeliverSpec(host, b, mods, d, txs[n]);
      assert (rs + [r])[..n] == rs;
      AccountedJoins(data, d, x, OkTxs(txs[..n], rs), if r.Ok? && txs[n].Some? then [txs[n].value] else []);
    }
  }

  lemma EndAccounted(data: State, mods: set<ModuleName>, now: int)
    requires CapInv(data)
    ensures Accounted(data, Merged(data, mods, now), [])
  {
    hide CapInv, Merged, Expiring, Marked, TokenEvolves, AapEnd, WeaveEnd, AapEvents, WeaveEvents, SweepEvents, FiatEvents;
    var d := Merged(data, mods, now);
    var swept := if CapMod in mods then SweepSpec(data, now) else data;
    EndTokens(data, mods, now);
    MergedOwned(data, mods, now, CapMod);
    OtherOwnersKeepTokens(swept, d);
    forall id | IsToken(data, id)
      ensures TokenAt(d, id) == TokenAt(data, id) || TokenAt(d, id) == TokenAt(data, id).(status := Expired)
    {
      MarkedToken(data, Expiring(data, now), Expired, id);
    }
  }

  /** Over every run of blocks each revoked, used or new token goes back to a successful transaction of
      the one entitled to it. */
  lemma {:induction false} RunAccounted(host: Host, pres: set<Bytes>, mods: set<ModuleName>, data: State, blocks: seq<Block>)
    requires RunOk(host, pres, data, blocks)
    ensures Accounted(data, AfterBlocks(host, mods, data, blocks), RunOks(host, mods, data, blocks))
    decreases |blocks|
  {
    hide ChainInv, ForeignOk, CollisionFree, NonceOf, DeliverAll, OkTxs, AllHashed, Merged, Accounted, TokensStay, Evolves;
    if blocks == [] {
      SelfStays(data);
      StayAccounted(data, data, []);
    } else {
      var n := |blocks| - 1;
      var before := AfterBlocks(host, mods, data, blocks[..n]);
      var oks := RunOks(host, mods, data, blocks[..n]);
      RunKeeps(host, pres, mods, data, blocks[..n]);
      RunAccounted(host, pres, mods, data, blocks[..n]);
      BlockAccounted(host, pres, mods, before, blocks[n]);
      AccountedJoins(data, before, AfterBlock(host, mods, before, blocks[n]), oks,
                     OkTxs(blocks[n].txs, DeliverAll(host, blocks[n], mods, before, blocks[n].txs).1));
    }
  }

  lemma BlockAccounted(host: Host, pres: set<Bytes>, mods: set<ModuleName>, data: State, b: Block)
    requires ForeignOk(host) && ChainInv(host, pres, data) && CollisionFree(host.digest, pres) && AllHashed(pres, b.txs)
    requires NonceRoom(data, |b.txs|)
    ensures Accounted(data, AfterBlock(host, mods, data, b), OkTxs(b.txs, DeliverAll(host, b, mods, data, b.txs).1))
  {
    hide CapInv, OriginsOk, WeaveInv, FiatInv, TasksKeyed, ForeignOk, CollisionFree, DeliverAll, NonceOf, Evolves, Merged, Accounted, OkTxs;
    var (d, rs) := DeliverAll(host, b, mods, data, b.txs);
    DeliverAllAccounted(host, pres, b, mods, data, b.txs);
    DeliverAllKeeps(host, pres, b, mods, data, b.txs);
    EndAccounted(d, mods, b.now);
    AccountedJoins(data, d, Merged(d, mods, b.now), OkTxs(b.txs, rs), []);
    assert OkTxs(b.txs, rs) + [] == OkTxs(b.txs, rs);
  }

  /** After every block of a run no token is due, no graph is running past its timeout and no executing
      task is silent, as far as the modules in charge are registered. */
  lemma RunLeavesNoneDue(host: Host, pres: set<Bytes>, mods: set<ModuleName>, data: State, blocks: seq<Block>)
    requires RunOk(host, pres, data, blocks) && blocks != []
    ensures var d := AfterBlocks(host, mods, data, blocks); var now := blocks[|blocks| - 1].now;
      && (CapMod in mods ==> forall id :: IsToken(d, id) && TokenAt(d, id).status == Unspent ==>
            TokenAt(d, id).expiresAt == 0 || TokenAt(d, id).expiresAt > now)
      && (WeaveMod in mods ==> forall id :: IsDag(d, id) && DagAt(d, id).status == DagRunning && DagAt(d, id).timeoutSec > 0 ==>
            now - DagAt(d, id).startedAt <= AsInt64(DagAt(d, id).timeoutSec))
      && (AapMod in mods ==> forall id :: IsTask(d, id) && d[TaskKey(id)].task.status == TaskExecuting ==>
            now - d[TaskKey(id)].task.lastHeartbeat <= 180)
  {
    hide CapInv, OriginsOk, WeaveInv, FiatInv, TasksKeyed, ForeignOk, CollisionFree, DeliverAll, NonceOf, Evolves, Merged,
         AllHashed, TokensSwept, RoundDone, TasksChecked, EventBag;
    var n := |blocks| - 1;
    var before := AfterBlocks(host, mods, data, blocks[..n]);
    RunKeeps(host, pres, mods, data, blocks[..n]);
    DeliverAllKeeps(host, pres, blocks[n], mods, before, blocks[n].txs);
    var mid := DeliverAll(host, blocks[n], mods, before, blocks[n].txs).0;
    var end := Merged(mid, mods, blocks[n].now);
    var out := BlockEvents(mid, mods, blocks[n].now);
    EndTold(mid, mods, blocks[n].now, out);
    if CapMod in mods {
      NoneDue(mid, end, out, blocks[n].now);
    }
    if WeaveMod in mods {
      NoneOverdue(mid, end, out, blocks[n].now);
    }
    if AapMod in mods {
      NoneSilent(mid, end, out, blocks[n].now);
    }
  }

  /** In every reachable state a REVOKED token was revoked by a signed transaction of its own issuer. */
  lemma RevokedByIssuer(host: Host, pres: set<Bytes>, mods: set<ModuleName>, blocks: seq<Block>, id: Bytes)
    requires RunOk(host, pres, map[], blocks)
    requires var d := AfterBlocks(host, mods, map[], blocks); IsToken(d, id) && TokenAt(d, id).status == Revoked
    ensures var issuer := TokenAt(AfterBlocks(host, mods, map[], blocks), id).issuer;
      exists e :: e in RunOks(host, mods, map[], blocks) && host.verify(e) && RevokedBy(e, issuer)
  {
    hide RunOk, AfterBlocks, RunOks, Evolves, SpendsAccounted, MakesAccounted;
    RunAccounted(host, pres, mods, map[], blocks);
    var d := AfterBlocks(host, mods, map[], blocks);
    var e :| e in RunOks(host, mods, map[], blocks) && RevokedBy(e, TokenAt(d, id).issuer);
    RunOksSigned(host, mods, map[], blocks, e);
  }
}
