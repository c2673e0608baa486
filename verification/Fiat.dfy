/** Escrows, provider deposits and the insurance pool. */
module Fiat {
  import opened ByteStrings
  import opened Codec
  import opened Keys
  import opened Engine
  import opened Records
  import opened MoneyMath

  const FIAT_BASE := 70
  const UNBONDING: int := 7 * 24 * 3600

  datatype FiatOp =
    | CreateEscrow(id: Bytes, orderId: Bytes, consumer: Bytes, provider: Bytes, fee: Money, bps: u32)
    | FundEscrow(id: Bytes)
    | ReleaseEscrow(id: Bytes)
    | LockEscrow(id: Bytes)
    | RefundEscrow(id: Bytes)
    | SlashDeposit(provider: Bytes, penalty: Money)
    | DepositFunds(currency: Currency, amount: real)
    | WithdrawDeposit(amount: real)
    | BadFiatPayload

  // ----- records in a state

  function EscrowKey(id: Bytes): Bytes { Key(FiatEscrow, id) }

  function DepositKey(provider: Bytes): Bytes { Key(FiatDeposit, Hex(provider)) }

  function PoolKey(): Bytes { Key(FiatPool, []) }

  predicate IsEscrow(data: State, id: Bytes) { EscrowKey(id) in data && data[EscrowKey(id)].EscrowV? }

  function EscrowAt(data: State, id: Bytes): Escrow
    requires IsEscrow(data, id)
  {
    data[EscrowKey(id)].escrow
  }

  predicate IsDeposit(data: State, provider: Bytes) {
    DepositKey(provider) in data && data[DepositKey(provider)].DepositV?
  }

  function DepositAt(data: State, provider: Bytes): Deposit
    requires IsDeposit(data, provider)
  {
    data[DepositKey(provider)].deposit
  }

  const EMPTY_POOL := Pool(0.0, 0.0, 0.0, 0.0, 20000)

  function PoolOf(data: State): Pool {
    if PoolKey() in data && data[PoolKey()].PoolV? then data[PoolKey()].pool else EMPTY_POOL
  }

  /** Records are filed under their own ids. */
  ghost predicate FiatKeyed(data: State) {
    && (forall id :: IsEscrow(data, id) ==> EscrowAt(data, id).id == id)
    && (forall p :: IsDeposit(data, p) ==> DepositAt(data, p).provider == p)
  }

  // ----- escrows

  function EffectiveBps(bps: u32): u32 { if bps == 0 then 1200 else bps }

  function NewEscrow(ctx: Ctx, op: FiatOp): Escrow
    requires op.CreateEscrow?
  {
    var bps := EffectiveBps(op.bps);
    var commission := ApplyBps(op.fee, bps);
    Escrow(if op.id == [] then Ascii("esc-") + ctx.stamp else op.id, op.orderId, op.consumer, op.provider,
           AddMoney(op.fee, commission).m, op.fee, commission, bps, EscrowPending, ctx.now, 0, 0)
  }

  /** A fifth of the commission goes to the insurance pool, all of it counts as income. */
  function Distributed(pool: Pool, commission: Money): Pool {
    var share := Round8(commission.amount * (20.0 / 100.0));
    var paid := if commission.currency == Usd then pool.(balanceUsd := Round8(pool.balanceUsd + share))
                else pool.(balanceCny := Round8(pool.balanceCny + share));
    paid.(totalIncome := Round8(pool.totalIncome + Round8(commission.amount)))
  }

  predicate MayRelease(e: Escrow) {
    (e.status == EscrowFunded || e.status == EscrowLocked) && e.commission.amount > 0.0
  }

  predicate MayRefund(e: Escrow) { e.status == EscrowFunded || e.status == EscrowLocked }

  function SaveEscrow(data: State, e: Escrow): State { data[EscrowKey(e.id) := EscrowV(e)] }

  function EscrowSpec(data: State, ctx: Ctx, op: FiatOp): (State, Outcome)
    requires op.CreateEscrow? || op.FundEscrow? || op.ReleaseEscrow? || op.LockEscrow? || op.RefundEscrow?
  {
    if op.CreateEscrow? then (SaveEscrow(data, NewEscrow(ctx, op)), Ok(2000, []))
    else if !IsEscrow(data, op.id) then (data, Fail(FIAT_BASE))
    else
      var e := EscrowAt(data, op.id);
      match op
      case FundEscrow(_) =>
        if e.status != EscrowPending then (data, Fail(FIAT_BASE + 1))
        else (SaveEscrow(data, e.(status := EscrowFunded, fundedAt := ctx.now)), Ok(1500, []))
      case ReleaseEscrow(_) =>
        if !MayRelease(e) then (data, Fail(FIAT_BASE + 1))
        else (SaveEscrow(data[PoolKey() := PoolV(Distributed(PoolOf(data), e.commission))],
                         e.(status := EscrowReleased, releasedAt := ctx.now)), Ok(3000, []))
      case LockEscrow(_) =>
        if e.status != EscrowFunded then (data, Fail(FIAT_BASE + 1))
        else (SaveEscrow(data, e.(status := EscrowLocked)), Ok(1000, []))
      case RefundEscrow(_) =>
        if !MayRefund(e) then (data, Fail(FIAT_BASE + 1))
        else (SaveEscrow(data, e.(status := EscrowRefunded)), Ok(3000, []))
  }

  /** Which status an escrow action needs: a pending escrow is funded, a funded one locked, and a funded or
      locked one refunded or, with a positive commission, released. */
  predicate MayMove(e: Escrow, op: FiatOp) {
    match op
    case FundEscrow(_) => e.status == EscrowPending
    case LockEscrow(_) => e.status == EscrowFunded
    case RefundEscrow(_) => e.status == EscrowFunded || e.status == EscrowLocked
    case ReleaseEscrow(_) => (e.status == EscrowFunded || e.status == EscrowLocked) && e.commission.amount > 0.0
    case _ => false
  }

  /** What the action makes of the escrow. */
  predicate Moved(e: Escrow, f: Escrow, op: FiatOp, now: int) {
    match op
    case FundEscrow(_) => f == e.(status := EscrowFunded, fundedAt := now)
    case LockEscrow(_) => f == e.(status := EscrowLocked)
    case RefundEscrow(_) => f == e.(status := EscrowRefunded)
    case ReleaseEscrow(_) => f == e.(status := EscrowReleased, releasedAt := now)
    case _ => false
  }

  method GetPool(store: Store) returns (pool: Pool)
    ensures pool == PoolOf(store.data)
  {
    var raw := store.Get(PoolKey());
    if raw.None? || !raw.value.PoolV? {
      return EMPTY_POOL;
    }
    pool := raw.value.pool;
  }

  /** Fails, without writing, when there is no positive commission to distribute. */
  method DistributeCommission(store: Store, e: Escrow) returns (ok: bool)
    modifies store`data
    ensures ok <==> e.commission.amount > 0.0
    ensures store.data == if ok then old(store.data)[PoolKey() := PoolV(Distributed(PoolOf(old(store.data)), e.commission))]
                          else old(store.data)
  {
    var total := e.commission.amount;
    if total <= 0.0 {
      return false;
    }
    var insuranceShare := total * (20.0 / 100.0);
    var pool := GetPool(store);
    if e.commission.currency == Usd {
      pool := pool.(balanceUsd := Round8(pool.balanceUsd + Round8(insuranceShare)));
    } else {
      pool := pool.(balanceCny := Round8(pool.balanceCny + Round8(insuranceShare)));
    }
    pool := pool.(totalIncome := Round8(pool.totalIncome + Round8(total)));
    store.Set(PoolKey(), PoolV(pool));
    ok := true;
  }

  method ExecuteEscrow(store: Store, ctx: Ctx, op: FiatOp) returns (r: Outcome)
    requires op.CreateEscrow? || op.FundEscrow? || op.ReleaseEscrow? || op.LockEscrow? || op.RefundEscrow?
    requires FiatKeyed(store.data)
    modifies store`data
    ensures (store.data, r) == EscrowSpec(old(store.data), ctx, op)
    ensures op.CreateEscrow? ==> r.Ok?
    ensures !op.CreateEscrow? ==> (r.Ok? <==> IsEscrow(old(store.data), op.id) && MayMove(EscrowAt(old(store.data), op.id), op))
    ensures !op.CreateEscrow? && r.Ok? ==>
      IsEscrow(store.data, op.id) && Moved(EscrowAt(old(store.data), op.id), EscrowAt(store.data, op.id), op, ctx.now)
    ensures r.Fail? ==> store.data == old(store.data)
  {
    hide Prefix, Round8;
    if op.CreateEscrow? {
      var e := NewEscrow(ctx, op);
      store.Set(EscrowKey(e.id), EscrowV(e));
      return Ok(2000, []);
    }
    var raw := store.Get(EscrowKey(op.id));
    if raw.None? || !raw.value.EscrowV? {
      return Fail(FIAT_BASE);
    }
    var e := raw.value.escrow;
    assert e == EscrowAt(store.data, op.id);
    match op {
      case FundEscrow(_) =>
        if e.status != EscrowPending {
          return Fail(FIAT_BASE + 1);
        }
        e := e.(status := EscrowFunded, fundedAt := ctx.now);
        r := Ok(1500, []);
      case ReleaseEscrow(_) =>
        if e.status != EscrowFunded && e.status != EscrowLocked {
          return Fail(FIAT_BASE + 1);
        }
        if e.status == EscrowFunded {
          e := e.(status := EscrowReleasing);
        }
        var distributed := DistributeCommission(store, e);
        if !distributed {
          return Fail(FIAT_BASE + 1);
        }
        e := e.(status := EscrowReleased, releasedAt := ctx.now);
        r := Ok(3000, []);
      case LockEscrow(_) =>
        if e.status != EscrowFunded {
          return Fail(FIAT_BASE + 1);
        }
        e := e.(status := EscrowLocked);
        r := Ok(1000, []);
      case RefundEscrow(_) =>
        if e.status != EscrowLocked && e.status != EscrowFunded {
          return Fail(FIAT_BASE + 1);
        }
        e := e.(status := EscrowRefunded);
        r := Ok(3000, []);
    }
    store.Set(EscrowKey(e.id), EscrowV(e));
  }

  // ----- deposits

  function TierFor(available: real): Tier {
    if available >= 100000.0 then Enterprise else if available >= 10000.0 then Pro else Starter
  }

  function MinDeposit(tier: Tier): real {
    match tier
    case Enterprise => 100000.0
    case Pro => 10000.0
    case Starter => 1000.0
  }

  /** A slash takes no more than what is available. */
  function SlashAmount(acc: Deposit, amount: real): real {
    if acc.available < amount then acc.available else amount
  }

  function Slashed(acc: Deposit, s: real): Deposit {
    acc.(available := Round8(acc.available - s), slashed := Round8(acc.slashed + s))
  }

  function PoolAfterSlash(pool: Pool, currency: Currency, s: real): Pool {
    if currency == Usd then pool.(balanceUsd := Round8(pool.balanceUsd + s))
    else pool.(balanceCny := Round8(pool.balanceCny + s))
  }

  function SlashSpec(data: State, provider: Bytes, amount: Money): (State, Outcome) {
    if !IsDeposit(data, provider) then (data, Fail(FIAT_BASE + 71))
    else
      var acc := DepositAt(data, provider);
      var s := SlashAmount(acc, amount.amount);
      (data[DepositKey(provider) := DepositV(Slashed(acc, s))]
           [PoolKey() := PoolV(PoolAfterSlash(PoolOf(data), amount.currency, s))],
       Ok(3000, [Event(DepositSlashed, Hex(provider))]))
  }

  function DepositOrNew(data: State, sender: Bytes, currency: Currency): Deposit {
    if IsDeposit(data, sender) then DepositAt(data, sender)
    else Deposit(sender, currency, 0.0, 0.0, 0.0, 0, 0, Starter)
  }

  function Deposited(acc: Deposit, amount: real, now: int): Deposit {
    var available := Round8(acc.available + amount);
    acc.(deposited := Round8(acc.deposited + amount), available := available, lastDepositAt := now, tier := TierFor(available))
  }

  predicate MayWithdraw(acc: Deposit, amount: real, now: int) {
    && now - acc.lastDepositAt >= UNBONDING
    && amount <= acc.available
    && Round8(acc.available - amount) >= MinDeposit(acc.tier)
  }

  function WithdrawSpec(data: State, ctx: Ctx, sender: Bytes, amount: real): (State, Outcome) {
    if !IsDeposit(data, sender) then (data, Fail(FIAT_BASE + 71))
    else
      var acc := DepositAt(data, sender);
      if ctx.now - acc.lastDepositAt < UNBONDING then (data, Fail(FIAT_BASE + 72))
      else if amount > acc.available then (data, Fail(FIAT_BASE + 70))
      else if !MayWithdraw(acc, amount, ctx.now) then (data, Fail(FIAT_BASE + 71))
      else (data[DepositKey(sender) := DepositV(acc.(available := Round8(acc.available - amount), lastWithdrawAt := ctx.now))],
            Ok(2000, []))
  }

  function FiatSpec(data: State, ctx: Ctx, sender: Bytes, op: FiatOp): (State, Outcome) {
    match op
    case SlashDeposit(provider, amount) => SlashSpec(data, provider, amount)
    case DepositFunds(currency, amount) =>
      (data[DepositKey(sender) := DepositV(Deposited(DepositOrNew(data, sender, currency), amount, ctx.now))], Ok(1500, []))
    case WithdrawDeposit(amount) => WithdrawSpec(data, ctx, sender, amount)
    case BadFiatPayload => (data, Fail(FIAT_BASE + 1))
    case _ => EscrowSpec(data, ctx, op)
  }

  /** The penalty moves from available to slashed, or all that is available when that is less; nothing
      else changes, and eight-digit amounts move exactly. */
  predicate TookPenalty(a: Deposit, b: Deposit, penalty: real) {
    var s := if a.available < penalty then a.available else penalty;
    && b == a.(available := Round8(a.available - s), slashed := Round8(a.slashed + s))
    && (Atomic(a.available) && Atomic(a.slashed) && Atomic(penalty) ==>
          b.available == a.available - s && b.slashed == a.slashed + s)
  }

  lemma SlashTold(data: State, provider: Bytes, amount: Money)
    ensures var (d, r) := SlashSpec(data, provider, amount);
      && (r.Ok? <==> IsDeposit(data, provider)) && (r.Fail? ==> d == data)
      && (r.Ok? ==> IsDeposit(d, provider) && TookPenalty(DepositAt(data, provider), DepositAt(d, provider), amount.amount))
  {
    hide Prefix, Hex, Round8, Atomic, PoolOf, PoolAfterSlash;
    DepositNotPool(provider);
    if IsDeposit(data, provider) {
      var a := DepositAt(data, provider);
      ExactMove(a.available, a.slashed, if a.available < amount.amount then a.available else amount.amount);
    }
  }

  method Slash(store: Store, provider: Bytes, amount: Money) returns (r: Outcome)
    requires FiatKeyed(store.data)
    modifies store`data
    ensures (store.data, r) == SlashSpec(old(store.data), provider, amount)
    // What is taken is the penalty, or what is available when that is less.
    ensures r.Ok? <==> IsDeposit(old(store.data), provider)
    ensures r.Fail? ==> store.data == old(store.data)
    ensures r.Ok? ==>
      IsDeposit(store.data, provider) && TookPenalty(DepositAt(old(store.data), provider), DepositAt(store.data, provider), amount.amount)
  {
    hide Prefix, Round8, TookPenalty;
    SlashTold(store.data, provider, amount);
    var raw := store.Get(DepositKey(provider));
    if raw.None? || !raw.value.DepositV? {
      return Fail(FIAT_BASE + 71);
    }
    var acc := raw.value.deposit;
    assert acc == DepositAt(store.data, provider);
    var slashAmount := amount.amount;
    if acc.available < slashAmount {
      slashAmount := acc.available;
    }
    acc := acc.(available := Round8(acc.available - slashAmount));
    acc := acc.(slashed := Round8(acc.slashed + slashAmount));
    DepositNotPool(provider);
    store.Set(DepositKey(acc.provider), DepositV(acc));
    var pool := GetPool(store);
    if amount.currency == Usd {
      pool := pool.(balanceUsd := Round8(pool.balanceUsd + slashAmount));
    } else {
      pool := pool.(balanceCny := Round8(pool.balanceCny + slashAmount));
    }
    store.Set(PoolKey(), PoolV(pool));
    r := Ok(3000, [Event(DepositSlashed, Hex(provider))]);
  }

  lemma ExactMove(x: real, y: real, s: real)
    ensures Atomic(x) && Atomic(s) ==> Round8(x - s) == x - s && Round8(x + s) == x + s
    ensures Atomic(y) && Atomic(s) ==> Round8(y + s) == y + s
  {
    hide Atomic, Round8;
    if Atomic(s) {
      if Atomic(x) {
        AtomicAdd(x, s);
        RoundExact(x - s);
        RoundExact(x + s);
      }
      if Atomic(y) {
        AtomicAdd(y, s);
        RoundExact(y + s);
      }
    }
  }

  lemma DepositNotPool(provider: Bytes)
    ensures DepositKey(provider) != PoolKey()
  {
    hide Prefix;
    if DepositKey(provider) == PoolKey() {
      NamespacesDisjoint(FiatDeposit, FiatPool, PoolKey());
    }
  }

  method DepositTo(store: Store, ctx: Ctx, sender: Bytes, currency: Currency, amount: real) returns (r: Outcome)
    requires FiatKeyed(store.data)
    modifies store`data
    ensures (store.data, r) == FiatSpec(old(store.data), ctx, sender, DepositFunds(currency, amount))
    // The account is opened when missing; what is paid in is both deposited and available.
    ensures r.Ok? && IsDeposit(store.data, sender)
    ensures var b := DepositAt(store.data, sender);
      var a := if IsDeposit(old(store.data), sender) then DepositAt(old(store.data), sender)
               else Deposit(sender, currency, 0.0, 0.0, 0.0, 0, 0, Starter);
      && b == a.(deposited := Round8(a.deposited + amount), available := Round8(a.available + amount),
                 lastDepositAt := ctx.now, tier := b.tier)
      && b.tier == (if b.available >= 100000.0 then Enterprise else if b.available >= 10000.0 then Pro else Starter)
  {
    hide Prefix, Round8;
    var raw := store.Get(DepositKey(sender));
    var acc := Deposit(sender, currency, 0.0, 0.0, 0.0, 0, 0, Starter);
    if raw.Some? && raw.value.DepositV? {
      acc := raw.value.deposit;
      assert acc == DepositAt(store.data, sender);
    }
    acc := acc.(deposited := Round8(acc.deposited + amount));
    acc := acc.(available := Round8(acc.available + amount));
    acc := acc.(lastDepositAt := ctx.now);
    acc := acc.(tier := TierFor(acc.available));
    store.Set(DepositKey(acc.provider), DepositV(acc));
    r := Ok(1500, []);
  }

  method Withdraw(store: Store, ctx: Ctx, sender: Bytes, amount: real) returns (r: Outcome)
    requires FiatKeyed(store.data)
    modifies store`data
    ensures (store.data, r) == WithdrawSpec(old(store.data), ctx, sender, amount)
    // Seven days after the last deposit, and never below the floor of the tier.
    ensures r.Ok? <==>
      IsDeposit(old(store.data), sender) &&
      var a := DepositAt(old(store.data), sender);
      && ctx.now - a.lastDepositAt >= 604800 && amount <= a.available
      && Round8(a.available - amount) >= (match a.tier case Enterprise => 100000.0 case Pro => 10000.0 case Starter => 1000.0)
    ensures r.Fail? ==> store.data == old(store.data)
    ensures r.Ok? ==>
      && IsDeposit(store.data, sender)
      && DepositAt(store.data, sender) ==
         DepositAt(old(store.data), sender).(available := Round8(DepositAt(old(store.data), sender).available - amount),
                                             lastWithdrawAt := ctx.now)
  {
    hide Prefix, Round8;
    var raw := store.Get(DepositKey(sender));
    if raw.None? || !raw.value.DepositV? {
      return Fail(FIAT_BASE + 71);
    }
    var acc := raw.value.deposit;
    assert acc == DepositAt(store.data, sender);
    if ctx.now - acc.lastDepositAt < UNBONDING {
      return Fail(FIAT_BASE + 72);
    }
    if !(amount <= acc.available) {
      return Fail(FIAT_BASE + 70);
    }
    var newAvail := Round8(acc.available - amount);
    if newAvail < MinDeposit(acc.tier) {
      return Fail(FIAT_BASE + 71);
    }
    acc := acc.(available := newAvail, lastWithdrawAt := ctx.now);
    store.Set(DepositKey(acc.provider), DepositV(acc));
    r := Ok(2000, []);
  }

  method ExecuteFiat(store: Store, ctx: Ctx, sender: Bytes, op: FiatOp) returns (r: Outcome)
    requires FiatKeyed(store.data)
    modifies store`data
    ensures (store.data, r) == FiatSpec(old(store.data), ctx, sender, op)
  {
    match op {
      case SlashDeposit(provider, amount) => r := Slash(store, provider, amount);
      case DepositFunds(currency, amount) => r := DepositTo(store, ctx, sender, currency, amount);
      case WithdrawDeposit(amount) => r := Withdraw(store, ctx, sender, amount);
      case BadFiatPayload => r := Fail(FIAT_BASE + 1);
      case _ => r := ExecuteEscrow(store, ctx, op);
    }
  }

  // ----- end of block

  function SafetyThreshold(pool: Pool): real {
    Round8(pool.maxSinglePayout * (pool.safetyBps as real / 10000.0))
  }

  function FiatEvents(data: State): seq<Event> {
    var pool := PoolOf(data);
    if pool.balanceCny < SafetyThreshold(pool) then [Event(PoolBelowSafety, [])] else []
  }

  /** The pool is reported exactly when its CNY balance is below safetyBps ten-thousandths of the largest
      single payout. */
  predicate PoolReported(data: State, out: seq<Event>) {
    Event(PoolBelowSafety, []) in out <==>
      PoolOf(data).balanceCny < Round8(PoolOf(data).maxSinglePayout * (PoolOf(data).safetyBps as real / 10000.0))
  }

  lemma PoolTold(data: State)
    ensures PoolReported(data, FiatEvents(data))
  {
    hide PoolOf, Round8;
    var events := FiatEvents(data);
    if |events| > 0 {
      assert events[0] == Event(PoolBelowSafety, []);
    }
  }

  method EndBlockFiat(store: Store) returns (events: seq<Event>)
    ensures events == FiatEvents(store.data)
    ensures PoolReported(store.data, events)
  {
    hide SafetyThreshold;
    PoolTold(store.data);
    var pool := GetPool(store);
    events := if pool.balanceCny < SafetyThreshold(pool) then [Event(PoolBelowSafety, [])] else [];
  }
}
