/** Whole runs of the machine: what every block keeps, and what every sender's nonces say. */
module Chain {
  import opened ByteStrings
  import opened Codec
  import opened Keys
  import opened Engine
  import opened Records
  import opened Nonce
  import opened ScanMap
  import opened CapGraph
  import opened CapOrigins
  import opened CapSweep
  import opened CapHandlers
  import opened CapInvariant
  import opened CapSteps
  import opened CapTheorems
  import opened DagValidate
  import opened Weave
  import opened WeaveRuns
  import opened Aap
  import opened MoneyMath
  import opened Fiat
  import opened FiatRuns
  import opened Locality
  import opened Router
  import opened Lifecycle

  // ----- handlers write their own part of the tree

  lemma CapWritesOwn(data: State, ctx: Ctx, sender: Bytes, nonce: nat, op: CapOp)
    ensures TouchesOnly(data, CapSpec(data, ctx, sender, nonce, op).0, Owner.Cap)
  {
    hide Prefix, OwnerOf, Key, Marked, Expiring, Reach, MintSpec, SpendSpec, DelegateSpec;
    match op {
      case MintCap(_, _, _, _, _, _, _, _) => MintWritesOwn(data, ctx, sender, nonce, op);
      case SpendCap(id) => SpendWritesOwn(data, ctx, sender, id);
      case DelegateCap(_, _, _, _, _) => DelegateWritesOwn(data, ctx, sender, nonce, op);
      case RevokeCap(id) => MarkedTouches(data, {id} + Reach(data, id), Revoked);
      case BatchExpire => MarkedTouches(data, Expiring(data, ctx.now), Expired);
      case BadCapPayload =>
    }
  }

  lemma MintWritesOwn(data: State, ctx: Ctx, sender: Bytes, nonce: nat, op: CapOp)
    requires op.MintCap?
    ensures TouchesOnly(data, MintSpec(data, ctx, sender, nonce, op).0, Owner.Cap)
  {
    hide Prefix, OwnerOf, Key, MintedToken;
    var t := MintedToken(ctx, sender, nonce, op);
    KeyOwner(CapUtxo, t.id);
    KeyOwner(CapHolder, Hex(t.holder) + [SLASH] + t.id);
    KeyOwner(CapType, t.capType + [SLASH] + t.id);
  }

  lemma SpendWritesOwn(data: State, ctx: Ctx, sender: Bytes, id: Bytes)
    ensures TouchesOnly(data, SpendSpec(data, ctx, sender, id).0, Owner.Cap)
  {
    hide Prefix, OwnerOf, Key, UsedOnce;
    KeyOwner(CapUtxo, id);
  }

  lemma DelegateWritesOwn(data: State, ctx: Ctx, sender: Bytes, nonce: nat, op: CapOp)
    requires op.DelegateCap?
    ensures TouchesOnly(data, DelegateSpec(data, ctx, sender, nonce, op).0, Owner.Cap)
  {
    hide Prefix, OwnerOf, Key, DelegatedToken, MayDelegate;
    if IsToken(data, op.id) {
      var parent := TokenAt(data, op.id);
      var t := DelegatedToken(ctx, sender, nonce, parent, op);
      KeyOwner(CapUtxo, t.id);
      KeyOwner(CapDerive, parent.id + [SLASH] + t.id);
    }
  }

  lemma WeaveWritesOwn(data: State, ctx: Ctx, sender: Bytes, op: WeaveOp)
    ensures TouchesOnly(data, WeaveSpec(data, ctx, sender, op).0, Owner.Weave)
  {
    hide Prefix, OwnerOf, ValidDag, UpdateFirst, Started;
    match op {
      case CreateDag(_, _, _, _, _) => KeyOwner(WeaveDag, NewDag(ctx, sender, op).id);
      case BadWeavePayload =>
      case _ => KeyOwner(WeaveDag, op.id);
    }
  }

  lemma FiatWritesOwn(data: State, ctx: Ctx, sender: Bytes, op: FiatOp)
    ensures TouchesOnly(data, FiatSpec(data, ctx, sender, op).0, Owner.Fiat)
  {
    hide Prefix, OwnerOf, Key, Hex, EscrowSpec, MayWithdraw, Slashed, SlashAmount, Deposited, DepositOrNew, PoolAfterSlash, PoolOf, Round8;
    KeyOwner(FiatPool, []);
    match op {
      case SlashDeposit(p, _) => KeyOwner(FiatDeposit, Hex(p));
      case DepositFunds(_, _) => KeyOwner(FiatDeposit, Hex(sender));
      case WithdrawDeposit(_) => KeyOwner(FiatDeposit, Hex(sender));
      case BadFiatPayload =>
      case _ => EscrowWritesOwn(data, ctx, op);
    }
  }

  lemma EscrowWritesOwn(data: State, ctx: Ctx, op: FiatOp)
    requires op.CreateEscrow? || op.FundEscrow? || op.ReleaseEscrow? || op.LockEscrow? || op.RefundEscrow?
    ensures TouchesOnly(data, EscrowSpec(data, ctx, op).0, Owner.Fiat)
  {
    hide TouchesOnly, SaveEscrow, NewEscrow, Distributed, PoolOf, PoolKey, MayRelease, MayRefund;
    forall e ensures TouchesOnly(data, SaveEscrow(data, e), Owner.Fiat) {
      SaveWritesOwn(data, e, Mark);
    }
    if op.ReleaseEscrow? && IsEscrow(data, op.id) {
      var e := EscrowAt(data, op.id);
      SaveWritesOwn(data, e.(status := EscrowReleased, releasedAt := ctx.now), PoolV(Distributed(PoolOf(data), e.commission)));
    }
    NothingTouched(data, Owner.Fiat);
  }

  lemma NothingTouched(data: State, o: Owner)
    ensures TouchesOnly(data, data, o)
  {
  }

  lemma SaveWritesOwn(data: State, e: Escrow, pool: Value)
    ensures TouchesOnly(data, SaveEscrow(data, e), Owner.Fiat)
    ensures TouchesOnly(data, SaveEscrow(data[PoolKey() := pool], e), Owner.Fiat)
  {
    hide Prefix, OwnerOf, Key;
    KeyOwner(FiatEscrow, e.id);
    KeyOwner(FiatPool, []);
  }

  // ----- parts of the tree that do not change

  lemma SameNonces(data: State, d: State)
    requires SameOwned(data, d, Owner.Acc)
    ensures forall s :: NonceOf(d, s) == NonceOf(data, s)
  {
    hide Prefix, OwnerOf, Hex, FromBigEndian;
    forall s ensures NonceOf(d, s) == NonceOf(data, s) {
      KeyOwner(AccNonce, Hex(s));
    }
  }

  lemma SameFiat(data: State, d: State)
    requires FiatInv(data) && SameOwned(data, d, Owner.Fiat)
    ensures FiatInv(d)
  {
    hide SameOwned, IsEscrow, IsDeposit, AtomicDeposit, AtomicPool, Atomic, PoolOf;
    forall id ensures IsEscrow(d, id) <==> IsEscrow(data, id)
      ensures IsEscrow(d, id) ==> EscrowAt(d, id) == EscrowAt(data, id)
    {
      SameRecords(data, d, id);
    }
    forall p ensures IsDeposit(d, p) <==> IsDeposit(data, p)
      ensures IsDeposit(d, p) ==> DepositAt(d, p) == DepositAt(data, p)
    {
      SameRecords(data, d, p);
    }
    SameRecords(data, d, []);
  }

  lemma SameRecords(data: State, d: State, id: Bytes)
    requires SameOwned(data, d, Owner.Fiat)
    ensures IsEscrow(d, id) <==> IsEscrow(data, id)
    ensures IsEscrow(d, id) ==> EscrowAt(d, id) == EscrowAt(data, id)
    ensures IsDeposit(d, id) <==> IsDeposit(data, id)
    ensures IsDeposit(d, id) ==> DepositAt(d, id) == DepositAt(data, id)
    ensures PoolOf(d) == PoolOf(data)
  {
    hide Prefix, OwnerOf, Key, Hex;
    KeyOwner(FiatEscrow, id);
    KeyOwner(FiatDeposit, Hex(id));
    KeyOwner(FiatPool, []);
  }

  lemma SameWeave(data: State, d: State)
    requires WeaveInv(data) && SameOwned(data, d, Owner.Weave)
    ensures WeaveInv(d)
  {
    hide Prefix, OwnerOf, ValidDag;
    SameDags(data, d);
  }

  lemma SameTasks(data: State, d: State)
    requires TasksKeyed(data) && SameOwned(data, d, Owner.Aap)
    ensures TasksKeyed(d)
  {
  }

  lemma OthersSame(data: State, d: State, o: Owner, p: Owner)
    requires TouchesOnly(data, d, o) && p != o
    ensures SameOwned(data, d, p)
  {
  }

  // ----- executing one transaction

  /** Execution leaves the nonces alone and keeps every module's invariant; tokens only move forward,
      and a new one comes from its transaction. */
  ghost predicate Executed(data: State, d: State, r: Outcome, e: Envelope, digest: Bytes -> Id) {
    && CapInv(d) && WeaveInv(d) && FiatInv(d) && TasksKeyed(d) && Evolves(data, d)
    && (forall s :: NonceOf(d, s) == NonceOf(data, s))
    && (forall id :: IsToken(d, id) ==> IsToken(data, id) || NewFrom(r, e, digest, id))
  }

  predicate NewFrom(r: Outcome, e: Envelope, digest: Bytes -> Id, id: Bytes) {
    && r.Ok? && e.call.CapCall? && MakesToken(e.call.cap)
    && digest(Preimage(NewOrigin(e.sender, e.nonce, e.call.cap))) == id
    && WellFormed(NewOrigin(e.sender, e.nonce, e.call.cap))
  }

  lemma NothingExecuted(data: State, e: Envelope, r: Outcome, digest: Bytes -> Id)
    requires CapInv(data) && WeaveInv(data) && FiatInv(data) && TasksKeyed(data)
    ensures Executed(data, data, r, e, digest)
  {
    hide CapInv, WeaveInv, FiatInv, TasksKeyed;
  }

  lemma CapExecuted(host: Host, pres: set<Bytes>, ctx: Ctx, data: State, e: Envelope)
    requires ChainInv(host, pres, data) && CollisionFree(host.digest, pres) && Hashed(pres, Some(e))
    requires ctx.digest == host.digest && e.call.CapCall? && |e.sender| == 32 && e.nonce == NonceOf(data, e.sender)
    ensures var (d, r) := CapSpec(data, ctx, e.sender, e.nonce, e.call.cap); Executed(data, d, r, e, host.digest)
  {
    hide CapInv, WeaveInv, FiatInv, TasksKeyed, CapSpec, Preimage, Prefix, OwnerOf, CollisionFree;
    var op := e.call.cap;
    var (d, r) := CapSpec(data, ctx, e.sender, e.nonce, op);
    if MakesToken(op) && r.Ok? {
      MakesFromStored(data, ctx, e, op);
      FreshId(data, host.digest, pres, NewOrigin(e.sender, e.nonce, op));
    }
    CapStep(data, ctx, e.sender, e.nonce, op);
    CapWritesOwn(data, ctx, e.sender, e.nonce, op);
    OthersSame(data, d, Owner.Cap, Owner.Acc);
    OthersSame(data, d, Owner.Cap, Owner.Weave);
    OthersSame(data, d, Owner.Cap, Owner.Fiat);
    OthersSame(data, d, Owner.Cap, Owner.Aap);
    SameNonces(data, d);
    SameWeave(data, d);
    SameFiat(data, d);
    SameTasks(data, d);
    forall id | IsToken(d, id) && !IsToken(data, id) ensures NewFrom(r, e, host.digest, id) {
      CapNewTokens(data, ctx, e.sender, e.nonce, op, id);
    }
  }

  lemma MakesFromStored(data: State, ctx: Ctx, e: Envelope, op: CapOp)
    requires CapInv(data) && MakesToken(op) && |e.sender| == 32 && CapSpec(data, ctx, e.sender, e.nonce, op).1.Ok?
    ensures WellFormed(NewOrigin(e.sender, e.nonce, op))
  {
  }

  lemma WeaveExecuted(data: State, ctx: Ctx, e: Envelope, op: WeaveOp, digest: Bytes -> Id)
    requires CapInv(data) && WeaveInv(data) && FiatInv(data) && TasksKeyed(data)
    ensures var (d, r) := WeaveSpec(data, ctx, e.sender, op); Executed(data, d, r, e, digest)
  {
    hide CapInv, WeaveInv, FiatInv, TasksKeyed, WeaveSpec, Prefix, OwnerOf, TokenEvolves;
    var (d, r) := WeaveSpec(data, ctx, e.sender, op);
    StepKeepsValid(data, Call(ctx, e.sender, op));
    WeaveWritesOwn(data, ctx, e.sender, op);
    OthersSame(data, d, Owner.Weave, Owner.Acc);
    OthersSame(data, d, Owner.Weave, Owner.Cap);
    OthersSame(data, d, Owner.Weave, Owner.Fiat);
    OthersSame(data, d, Owner.Weave, Owner.Aap);
    SameNonces(data, d);
    OtherOwnersKeepInv(data, d);
    OtherOwnersKeepTokens(data, d);
    SameFiat(data, d);
    SameTasks(data, d);
  }

  lemma FiatExecuted(data: State, ctx: Ctx, e: Envelope, op: FiatOp, digest: Bytes -> Id)
    requires CapInv(data) && WeaveInv(data) && FiatInv(data) && TasksKeyed(data)
    ensures var (d, r) := FiatSpec(data, ctx, e.sender, op); Executed(data, d, r, e, digest)
  {
    hide CapInv, WeaveInv, FiatInv, TasksKeyed, FiatSpec, Prefix, OwnerOf, TokenEvolves;
    var (d, r) := FiatSpec(data, ctx, e.sender, op);
    FiatRuns.StepKeepsInv(data, FiatStep(ctx, e.sender, op));
    FiatWritesOwn(data, ctx, e.sender, op);
    OthersSame(data, d, Owner.Fiat, Owner.Acc);
    OthersSame(data, d, Owner.Fiat, Owner.Cap);
    OthersSame(data, d, Owner.Fiat, Owner.Weave);
    OthersSame(data, d, Owner.Fiat, Owner.Aap);
    SameNonces(data, d);
    OtherOwnersKeepInv(data, d);
    OtherOwnersKeepTokens(data, d);
    SameWeave(data, d);
    SameTasks(data, d);
  }

  lemma ForeignExecuted(host: Host, data: State, e: Envelope)
    requires ForeignOk(host) && CapInv(data) && WeaveInv(data) && FiatInv(data) && TasksKeyed(data)
    ensures var (d, r) := host.foreign(data, e); Executed(data, d, r, e, host.digest)
  {
    hide CapInv, WeaveInv, FiatInv, TasksKeyed, Prefix, OwnerOf, TokenEvolves;
    var (d, r) := host.foreign(data, e);
    assert ForeignStep(data, d);
    assert Modelled(Owner.Acc) && Modelled(Owner.Cap) && Modelled(Owner.Weave) && Modelled(Owner.Fiat);
    SameNonces(data, d);
    OtherOwnersKeepInv(data, d);
    OtherOwnersKeepTokens(data, d);
    SameWeave(data, d);
    SameFiat(data, d);
  }

  lemma ExecuteKeeps(host: Host, pres: set<Bytes>, ctx: Ctx, mods: set<ModuleName>, data: State, e: Envelope)
    requires ForeignOk(host) && ChainInv(host, pres, data) && CollisionFree(host.digest, pres) && Hashed(pres, Some(e))
    requires ctx.digest == host.digest && |e.sender| == 32 && e.nonce == NonceOf(data, e.sender)
    ensures var (d, r) := ExecuteSpec(host, ctx, mods, data, e); Executed(data, d, r, e, host.digest)
  {
    hide CapInv, WeaveInv, FiatInv, TasksKeyed, Executed, ForeignOk, CollisionFree, CapSpec, WeaveSpec, FiatSpec;
    NothingExecuted(data, e, Fail(CODE_MODULE), host.digest);
    match e.call {
      case CapCall(op) => CapExecuted(host, pres, ctx, data, e);
      case WeaveCall(op) => WeaveExecuted(data, ctx, e, op, host.digest);
      case FiatCall(op) => FiatExecuted(data, ctx, e, op, host.digest);
      case OtherCall(m, _) => ForeignExecuted(host, data, e);
      case _ =>
    }
  }

  // ----- delivering one transaction

  lemma NonceWriteKeeps(data: State, pub: Bytes, n: nat)
    requires CapInv(data) && WeaveInv(data) && FiatInv(data) && TasksKeyed(data)
    ensures var d := WithNonce(data, pub, n);
      CapInv(d) && WeaveInv(d) && FiatInv(d) && TasksKeyed(d) && Evolves(data, d) &&
      forall id :: IsToken(d, id) <==> IsToken(data, id)
  {
    hide CapInv, WeaveInv, FiatInv, TasksKeyed, Prefix, OwnerOf, TokenEvolves, Hex, BigEndian;
    var d := WithNonce(data, pub, n);
    KeyOwner(AccNonce, Hex(pub));
    WriteTouchesOnly(data, NonceKey(pub), Word(BigEndian(n % TWO64, 8)), Owner.Acc);
    OthersSame(data, d, Owner.Acc, Owner.Cap);
    OthersSame(data, d, Owner.Acc, Owner.Weave);
    OthersSame(data, d, Owner.Acc, Owner.Fiat);
    OthersSame(data, d, Owner.Acc, Owner.Aap);
    OtherOwnersKeepInv(data, d);
    OtherOwnersKeepTokens(data, d);
    SameWeave(data, d);
    SameFiat(data, d);
    SameTasks(data, d);
  }

  /** A stored token's origin stays spent as nonces grow, and a new token's origin is the one just
      spent. */
  lemma OriginsKept(data: State, d: State, digest: Bytes -> Id, pres: set<Bytes>, e: Envelope, r: Outcome)
    requires OriginsOk(data, digest, pres) && Hashed(pres, Some(e))
    requires forall s :: NonceOf(data, s) <= NonceOf(d, s)
    requires r.Ok? ==> e.nonce < NonceOf(d, e.sender)
    requires forall id :: IsToken(d, id) ==> IsToken(data, id) || NewFrom(r, e, digest, id)
    ensures OriginsOk(d, digest, pres)
  {
  }

  /** What a transaction does to the nonces, for a counter that does not run over. */
  ghost predicate NonceStep(data: State, d: State, raw: RawTx, r: Outcome) {
    forall s :: NonceOf(d, s) ==
      NonceOf(data, s) + (if r.Ok? && raw.Some? && raw.value.sender == s then 1 else 0)
  }

  lemma DeliverKeeps(host: Host, pres: set<Bytes>, b: Block, mods: set<ModuleName>, data: State, raw: RawTx)
    requires ForeignOk(host) && ChainInv(host, pres, data) && CollisionFree(host.digest, pres) && Hashed(pres, raw)
    requires NonceRoom(data, 1)
    ensures var (d, r) := DeliverSpec(host, b, mods, data, raw);
      && ChainInv(host, pres, d) && Evolves(data, d) && NonceStep(data, d, raw, r)
      && (r.Ok? ==> raw.Some? && raw.value.nonce == NonceOf(data, raw.value.sender))
  {
    hide CapInv, WeaveInv, FiatInv, TasksKeyed, ForeignOk, CollisionFree, ExecuteSpec, WithNonce, NonceOf, TokenEvolves, OriginsOk, IsToken;
    var refusal := Refusal(host, b.height, data, raw);
    if refusal.None? {
      var e := raw.value;
      var (x, r) := ExecuteSpec(host, CtxOf(host, b), mods, data, e);
      ExecuteKeeps(host, pres, CtxOf(host, b), mods, data, e);
      if r.Ok? {
        var n := NonceOf(data, e.sender) + 1;
        var d := WithNonce(x, e.sender, n);
        NonceWriteKeeps(x, e.sender, n);
        EvolvesTransitive(data, x, d);
        forall s ensures NonceOf(d, s) == if s == e.sender then n else NonceOf(data, s) {
          NonceReadBack(x, e.sender, n, s);
          assert n < TWO64;
        }
        OriginsKept(data, d, host.digest, pres, e, r);
      } else {
        OriginsKept(data, x, host.digest, pres, e, r);
      }
    } else {
      EvolvesSelf(data);
    }
  }

  lemma EvolvesSelf(data: State)
    ensures Evolves(data, data)
  {
  }

  // ----- all transactions of a block

  predicate AllHashed(pres: set<Bytes>, txs: seq<RawTx>) {
    forall i :: 0 <= i < |txs| ==> Hashed(pres, txs[i])
  }

  /** The nonces of a sender's successful transactions, in order. */
  ghost function OkNonces(txs: seq<RawTx>, results: seq<Outcome>, s: Bytes): seq<nat>
    requires |txs| == |results|
  {
    if txs == [] then []
    else
      var n := |txs| - 1;
      OkNonces(txs[..n], results[..n], s) +
      (if results[n].Ok? && txs[n].Some? && txs[n].value.sender == s then [txs[n].value.nonce] else [])
  }

  /** The n numbers from a on. */
  ghost function Consecutive(a: nat, n: nat): (r: seq<nat>)
    ensures |r| == n && forall i :: 0 <= i < n ==> r[i] == a + i
  {
    seq(n, i requires 0 <= i => a + i)
  }

  lemma {:induction false} DeliverAllKeeps(host: Host, pres: set<Bytes>, b: Block, mods: set<ModuleName>, data: State, txs: seq<RawTx>)
    requires ForeignOk(host) && ChainInv(host, pres, data) && CollisionFree(host.digest, pres) && AllHashed(pres, txs)
    requires NonceRoom(data, |txs|)
    ensures var d := DeliverAll(host, b, mods, data, txs).0;
      ChainInv(host, pres, d) && Evolves(data, d) && NoncesWithin(data, d, |txs|)
    decreases |txs|
  {
    hide ChainInv, ForeignOk, CollisionFree, DeliverSpec, NonceOf, TokenEvolves, IsToken, Hashed, Evolves;
    if txs == [] {
      EvolvesSelf(data);
    } else {
      var n := |txs| - 1;
      var d := DeliverAll(host, b, mods, data, txs[..n]).0;
      DeliverAllKeeps(host, pres, b, mods, data, txs[..n]);
      DeliverKeeps(host, pres, b, mods, d, txs[n]);
      EvolvesTransitive(data, d, DeliverSpec(host, b, mods, d, txs[n]).0);
    }
  }

  /** n transactions advance no nonce by more than n. */
  ghost predicate NoncesWithin(data: State, d: State, n: nat) {
    forall s :: NonceOf(data, s) <= NonceOf(d, s) <= NonceOf(data, s) + n
  }

  /** The successful nonces of s are the consecutive numbers from its stored nonce before to its
      stored nonce after. */
  ghost predicate NoncesRun(data: State, d: State, s: Bytes, nonces: seq<nat>) {
    nonces == Consecutive(NonceOf(data, s), |nonces|) && NonceOf(d, s) == NonceOf(data, s) + |nonces|
  }

  lemma {:induction false} DeliverNonces(host: Host, pres: set<Bytes>, b: Block, mods: set<ModuleName>,
    data: State, txs: seq<RawTx>, s: Bytes)
    requires ForeignOk(host) && ChainInv(host, pres, data) && CollisionFree(host.digest, pres) && AllHashed(pres, txs)
    requires NonceRoom(data, |txs|)
    ensures var (d, rs) := DeliverAll(host, b, mods, data, txs); NoncesRun(data, d, s, OkNonces(txs, rs, s))
    decreases |txs|
  {
    hide ChainInv, ForeignOk, CollisionFree, DeliverSpec, NonceOf, Hashed, Evolves;
    if txs != [] {
      var n := |txs| - 1;
      var (d, rs) := DeliverAll(host, b, mods, data, txs[..n]);
      DeliverAllKeeps(host, pres, b, mods, data, txs[..n]);
      DeliverNonces(host, pres, b, mods, data, txs[..n], s);
      DeliverKeeps(host, pres, b, mods, d, txs[n]);
      var (e, r) := DeliverSpec(host, b, mods, d, txs[n]);
      assert (rs + [r])[..n] == rs;
      if r.Ok? && txs[n].value.sender == s {
        ConsecutiveNext(NonceOf(data, s), |OkNonces(txs[..n], rs, s)|);
      }
    }
  }

  lemma ConsecutiveNext(a: nat, n: nat)
    ensures Consecutive(a, n) + [a + n] == Consecutive(a, n + 1)
  {
  }

  // ----- the end of a block

  lemma MergedNonces(data: State, mods: set<ModuleName>, now: int)
    ensures forall s :: NonceOf(Merged(data, mods, now), s) == NonceOf(data, s)
  {
    hide OwnerOf, ModuleEnd, NonceOf;
    assert SameOwned(data, Merged(data, mods, now), Owner.Acc);
    SameNonces(data, Merged(data, mods, now));
  }

  lemma AapEndKeyed(data: State, now: int)
    requires TasksKeyed(data)
    ensures TasksKeyed(AapEnd(data, now))
  {
  }

  lemma EndTokens(data: State, mods: set<ModuleName>, now: int)
    requires CapInv(data)
    ensures var d := Merged(data, mods, now);
      CapInv(d) && Evolves(data, d) && forall id :: IsToken(d, id) ==> IsToken(data, id)
  {
    hide CapInv, Merged, Expiring, Marked, TokenEvolves, AapEnd, WeaveEnd, AapEvents, WeaveEvents, SweepEvents, FiatEvents;
    var d := Merged(data, mods, now);
    var swept := if CapMod in mods then SweepSpec(data, now) else data;
    MergedOwned(data, mods, now, CapMod);
    MarkedSteps(data, Expiring(data, now), Expired);
    EvolvesSelf(data);
    OtherOwnersKeepInv(swept, d);
    EvolvesTransitive(data, swept, d);
    OtherOwnersKeepTokens(swept, d);
    forall id | IsToken(d, id) ensures IsToken(data, id) {
      MarkedToken(data, Expiring(data, now), Expired, id);
    }
  }

  lemma EndKeeps(host: Host, pres: set<Bytes>, data: State, mods: set<ModuleName>, now: int)
    requires ChainInv(host, pres, data)
    ensures ChainInv(host, pres, Merged(data, mods, now)) && Evolves(data, Merged(data, mods, now))
  {
    hide CapInv, WeaveInv, FiatInv, TasksKeyed, Merged, Evolves, IsToken, Expiring, Marked, AapEnd, WeaveEnd, NonceOf,
         AapEvents, WeaveEvents, SweepEvents, FiatEvents, Preimage;
    var d := Merged(data, mods, now);
    MergedOwned(data, mods, now, WeaveMod);
    MergedOwned(data, mods, now, FiatMod);
    MergedOwned(data, mods, now, AapMod);
    EndTokens(data, mods, now);
    StepKeepsValid(data, Round(now));
    SameWeave(if WeaveMod in mods then WeaveEnd(data, now) else data, d);
    SameFiat(data, d);
    AapEndKeyed(data, now);
    SameTasks(if AapMod in mods then AapEnd(data, now) else data, d);
    MergedNonces(data, mods, now);
    forall id | IsToken(d, id) ensures HasOrigin(d, host.digest, pres, id) {
      assert HasOrigin(data, host.digest, pres, id);
    }
  }

  /** Every block keeps the invariant of the whole machine and moves tokens forward only. */
  lemma BlockKeeps(host: Host, pres: set<Bytes>, mods: set<ModuleName>, data: State, b: Block)
    requires ForeignOk(host) && ChainInv(host, pres, data) && CollisionFree(host.digest, pres) && AllHashed(pres, b.txs)
    requires NonceRoom(data, |b.txs|)
    ensures var d := AfterBlock(host, mods, data, b);
      ChainInv(host, pres, d) && Evolves(data, d) && NoncesWithin(data, d, |b.txs|)
  {
    hide ChainInv, ForeignOk, CollisionFree, DeliverAll, NonceOf, Evolves, Merged;
    DeliverAllKeeps(host, pres, b, mods, data, b.txs);
    var d := DeliverAll(host, b, mods, data, b.txs).0;
    EndKeeps(host, pres, d, mods, b.now);
    EvolvesTransitive(data, d, Merged(d, mods, b.now));
    MergedNonces(d, mods, b.now);
  }

  // ----- runs of blocks

  ghost function AfterBlocks(host: Host, mods: set<ModuleName>, data: State, blocks: seq<Block>): State
    decreases |blocks|
  {
    if blocks == [] then data
    else AfterBlock(host, mods, AfterBlocks(host, mods, data, blocks[..|blocks| - 1]), blocks[|blocks| - 1])
  }

  /** The nonces of a sender's successful transactions over a run, in order. */
  ghost function RunNonces(host: Host, mods: set<ModuleName>, data: State, blocks: seq<Block>, s: Bytes): seq<nat>
    decreases |blocks|
  {
    if blocks == [] then []
    else
      var last := blocks[|blocks| - 1];
      var before := AfterBlocks(host, mods, data, blocks[..|blocks| - 1]);
      RunNonces(host, mods, data, blocks[..|blocks| - 1], s) +
      OkNonces(last.txs, DeliverAll(host, last, mods, before, last.txs).1, s)
  }

  function TxCount(blocks: seq<Block>): nat {
    if blocks == [] then 0 else TxCount(blocks[..|blocks| - 1]) + |blocks[|blocks| - 1].txs|
  }

  ghost predicate RunOk(host: Host, pres: set<Bytes>, data: State, blocks: seq<Block>) {
    && ForeignOk(host) && ChainInv(host, pres, data) && CollisionFree(host.digest, pres)
    && (forall i :: 0 <= i < |blocks| ==> AllHashed(pres, blocks[i].txs))
    && NonceRoom(data, TxCount(blocks))
  }

  /** Over every run of blocks the machine's invariant holds and tokens only move forward. */
  lemma {:induction false} RunKeeps(host: Host, pres: set<Bytes>, mods: set<ModuleName>, data: State, blocks: seq<Block>)
    requires RunOk(host, pres, data, blocks)
    ensures var d := AfterBlocks(host, mods, data, blocks);
      ChainInv(host, pres, d) && Evolves(data, d) && NoncesWithin(data, d, TxCount(blocks))
    decreases |blocks|
  {
    hide ChainInv, ForeignOk, CollisionFree, NonceOf, AfterBlock, AllHashed, Evolves;
    if blocks == [] {
      EvolvesSelf(data);
    } else {
      var n := |blocks| - 1;
      var before := AfterBlocks(host, mods, data, blocks[..n]);
      RunKeeps(host, pres, mods, data, blocks[..n]);
      BlockKeeps(host, pres, mods, before, blocks[n]);
      EvolvesTransitive(data, before, AfterBlock(host, mods, before, blocks[n]));
    }
  }

  /** Over every run of blocks each sender's successful transactions carry consecutive nonces, in
      order, from the initial one on; the stored nonce is the initial one plus their number. */
  lemma {:induction false} RunNoncesConsecutive(host: Host, pres: set<Bytes>, mods: set<ModuleName>,
    data: State, blocks: seq<Block>, s: Bytes)
    requires RunOk(host, pres, data, blocks)
    ensures NoncesRun(data, AfterBlocks(host, mods, data, blocks), s, RunNonces(host, mods, data, blocks, s))
    decreases |blocks|
  {
    hide ChainInv, ForeignOk, CollisionFree, NonceOf, AllHashed, Evolves, DeliverAll, OkNonces, Merged;
    if blocks != [] {
      var n := |blocks| - 1;
      var before := AfterBlocks(host, mods, data, blocks[..n]);
      RunKeeps(host, pres, mods, data, blocks[..n]);
      RunNoncesConsecutive(host, pres, mods, data, blocks[..n], s);
      DeliverNonces(host, pres, blocks[n], mods, before, blocks[n].txs, s);
      var (d, rs) := DeliverAll(host, blocks[n], mods, before, blocks[n].txs);
      MergedNonces(d, mods, blocks[n].now);
      ConsecutiveJoins(NonceOf(data, s), |RunNonces(host, mods, data, blocks[..n], s)|, |OkNonces(blocks[n].txs, rs, s)|);
    }
  }

  lemma ConsecutiveJoins(a: nat, m: nat, n: nat)
    ensures Consecutive(a, m) + Consecutive(a + m, n) == Consecutive(a, m + n)
  {
  }

  /** No (sender, nonce) pair succeeds twice in a run. */
  lemma NoReplay(host: Host, pres: set<Bytes>, mods: set<ModuleName>, data: State, blocks: seq<Block>, s: Bytes)
    requires RunOk(host, pres, data, blocks)
    ensures NoRepeats(RunNonces(host, mods, data, blocks, s))
  {
    hide RunOk, ChainInv, NonceOf, RunNonces, AfterBlocks;
    RunNoncesConsecutive(host, pres, mods, data, blocks, s);
  }

  lemma GenesisOk(host: Host, pres: set<Bytes>)
    ensures ChainInv(host, pres, map[])
    ensures forall s :: NonceOf(map[], s) == 0
  {
    InitiallyOk();
    EmptyInv();
  }

  /** In every state reachable from the empty tree, every delegation chain attenuates. */
  lemma ReachableChainAttenuates(host: Host, pres: set<Bytes>, mods: set<ModuleName>, blocks: seq<Block>, path: seq<Bytes>)
    requires RunOk(host, pres, map[], blocks) && Chain(AfterBlocks(host, mods, map[], blocks), path)
    ensures var d := AfterBlocks(host, mods, map[], blocks);
      Weaker(TokenAt(d, path[0]), TokenAt(d, path[|path| - 1]), |path| - 1)
  {
    hide RunOk, Weaker, AfterBlocks, CapInv;
    RunKeeps(host, pres, mods, map[], blocks);
    ChainAttenuates(AfterBlocks(host, mods, map[], blocks), path);
  }

  // ----- bounded use

  predicate Spends(raw: RawTx, r: Outcome, id: Bytes) {
    r.Ok? && raw.Some? && raw.value.call == CapCall(SpendCap(id))
  }

  ghost function SpendsIn(txs: seq<RawTx>, results: seq<Outcome>, id: Bytes): nat
    requires |txs| == |results|
  {
    if txs == [] then 0
    else
      var n := |txs| - 1;
      SpendsIn(txs[..n], results[..n], id) + (if Spends(txs[n], results[n], id) then 1 else 0)
  }

  ghost function RunSpends(host: Host, mods: set<ModuleName>, data: State, blocks: seq<Block>, id: Bytes): nat
    decreases |blocks|
  {
    if blocks == [] then 0
    else
      var last := blocks[|blocks| - 1];
      var before := AfterBlocks(host, mods, data, blocks[..|blocks| - 1]);
      RunSpends(host, mods, data, blocks[..|blocks| - 1], id) +
      SpendsIn(last.txs, DeliverAll(host, last, mods, before, last.txs).1, id)
  }

  ghost function UsesOf(data: State, id: Bytes): nat {
    if IsToken(data, id) then TokenAt(data, id).usedCount else 0
  }

  lemma UsesOnlyGrow(data: State, d: State, id: Bytes)
    requires Evolves(data, d) && IsToken(data, id) && TokenAt(data, id).maxUses > 0
    ensures IsToken(d, id) && TokenAt(d, id).maxUses == TokenAt(data, id).maxUses
    ensures UsesOf(data, id) <= UsesOf(d, id)
  {
  }

  lemma DeliverCountsUse(host: Host, pres: set<Bytes>, b: Block, mods: set<ModuleName>, data: State, raw: RawTx, id: Bytes)
    requires ForeignOk(host) && ChainInv(host, pres, data) && CollisionFree(host.digest, pres) && Hashed(pres, raw)
    requires NonceRoom(data, 1) && IsToken(data, id) && TokenAt(data, id).maxUses > 0
    ensures var (d, r) := DeliverSpec(host, b, mods, data, raw);
      UsesOf(data, id) + (if Spends(raw, r, id) then 1 else 0) <= UsesOf(d, id)
  {
    hide CapInv, WeaveInv, FiatInv, TasksKeyed, ForeignOk, CollisionFree, OriginsOk, NonceOf, Prefix, Hex, BigEndian, OwnerOf;
    var (d, r) := DeliverSpec(host, b, mods, data, raw);
    DeliverKeeps(host, pres, b, mods, data, raw);
    if Spends(raw, r, id) {
      var e := raw.value;
      var x := SpendSpec(data, CtxOf(host, b), e.sender, id).0;
      SpendSteps(data, CtxOf(host, b), e.sender, id);
      if NonceKey(e.sender) == UtxoKey(id) {
        NamespacesDisjoint(AccNonce, CapUtxo, UtxoKey(id));
      }
      assert d == WithNonce(x, e.sender, NonceOf(data, e.sender) + 1);
      assert TokenAt(d, id) == TokenAt(x, id);
    }
  }

  lemma {:induction false} BlockCountsUses(host: Host, pres: set<Bytes>, b: Block, mods: set<ModuleName>,
    data: State, txs: seq<RawTx>, id: Bytes)
    requires ForeignOk(host) && ChainInv(host, pres, data) && CollisionFree(host.digest, pres) && AllHashed(pres, txs)
    requires NonceRoom(data, |txs|) && IsToken(data, id) && TokenAt(data, id).maxUses > 0
    ensures var (d, rs) := DeliverAll(host, b, mods, data, txs);
      UsesOf(data, id) + SpendsIn(txs, rs, id) <= UsesOf(d, id)
    decreases |txs|
  {
    hide ChainInv, ForeignOk, CollisionFree, DeliverSpec, NonceOf, Hashed, IsToken, Spends, UsesOf, Evolves;
    if txs != [] {
      var n := |txs| - 1;
      var (d, rs) := DeliverAll(host, b, mods, data, txs[..n]);
      DeliverAllKeeps(host, pres, b, mods, data, txs[..n]);
      UsesOnlyGrow(data, d, id);
      BlockCountsUses(host, pres, b, mods, data, txs[..n], id);
      DeliverCountsUse(host, pres, b, mods, d, txs[n], id);
      var r := DeliverSpec(host, b, mods, d, txs[n]).1;
      assert (rs + [r])[..n] == rs;
    }
  }

  /** A token with a positive MaxUses is spent at most that often, over every run of blocks. */
  lemma {:induction false} SpendsBounded(host: Host, pres: set<Bytes>, mods: set<ModuleName>, data: State, blocks: seq<Block>, id: Bytes)
    requires RunOk(host, pres, data, blocks) && IsToken(data, id) && TokenAt(data, id).maxUses > 0
    ensures UsesOf(data, id) + RunSpends(host, mods, data, blocks, id) <= UsesOf(AfterBlocks(host, mods, data, blocks), id)
    ensures UsesOf(data, id) + RunSpends(host, mods, data, blocks, id) <= TokenAt(data, id).maxUses
    decreases |blocks|
  {
    hide ChainInv, ForeignOk, CollisionFree, DeliverAll, NonceOf, IsToken, AllHashed, SpendsIn, Merged, Evolves, UsesOf;
    RunKeeps(host, pres, mods, data, blocks);
    var end := AfterBlocks(host, mods, data, blocks);
    UsesOnlyGrow(data, end, id);
    if blocks != [] {
      var n := |blocks| - 1;
      var before := AfterBlocks(host, mods, data, blocks[..n]);
      RunKeeps(host, pres, mods, data, blocks[..n]);
      UsesOnlyGrow(data, before, id);
      SpendsBounded(host, pres, mods, data, blocks[..n], id);
      BlockCountsUses(host, pres, blocks[n], mods, before, blocks[n].txs, id);
      var d := DeliverAll(host, blocks[n], mods, before, blocks[n].txs).0;
      DeliverAllKeeps(host, pres, blocks[n], mods, before, blocks[n].txs);
      UsesOnlyGrow(before, d, id);
      EndKeeps(host, pres, d, mods, blocks[n].now);
      UsesOnlyGrow(d, end, id);
    }
    UsesBounded(host, pres, end, id);
  }

  lemma UsesBounded(host: Host, pres: set<Bytes>, data: State, id: Bytes)
    requires ChainInv(host, pres, data) && IsToken(data, id) && TokenAt(data, id).maxUses > 0
    ensures UsesOf(data, id) <= TokenAt(data, id).maxUses
  {
    hide CapInv, OriginsOk, WeaveInv, FiatInv, TasksKeyed;
    UsageOfInv(data, id);
  }
}
