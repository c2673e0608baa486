/** Money over whole runs: the insurance pool, the deposit ledgers and the life of an escrow. */
module FiatRuns {
  import opened ByteStrings
  import opened Codec
  import opened Keys
  import opened Engine
  import opened Records
  import opened MoneyMath
  import opened Fiat

  datatype FiatStep = FiatStep(ctx: Ctx, sender: Bytes, op: FiatOp)

  function After(data: State, step: FiatStep): State {
    FiatSpec(data, step.ctx, step.sender, step.op).0
  }

  predicate Succeeds(data: State, step: FiatStep) {
    FiatSpec(data, step.ctx, step.sender, step.op).1.Ok?
  }

  function AfterAll(data: State, steps: seq<FiatStep>): State
    decreases |steps|
  {
    if steps == [] then data else AfterAll(After(data, steps[0]), steps[1..])
  }

  const TICK: real := 0.00000001

  function Abs(x: real): real { if x < 0.0 then -x else x }

  // ----- stored amounts have at most eight fractional digits

  predicate AtomicDeposit(a: Deposit) { Atomic(a.deposited) && Atomic(a.available) && Atomic(a.slashed) }

  predicate AtomicPool(p: Pool) { Atomic(p.balanceCny) && Atomic(p.balanceUsd) && Atomic(p.totalIncome) }

  ghost predicate FiatInv(data: State) {
    && FiatKeyed(data)
    && (forall p :: IsDeposit(data, p) ==> AtomicDeposit(DepositAt(data, p)))
    && (forall id :: IsEscrow(data, id) ==> Atomic(EscrowAt(data, id).commission.amount))
    && AtomicPool(PoolOf(data))
  }

  /** Keys of different kinds never collide. */
  lemma KeysApart(id: Bytes, p: Bytes)
    ensures EscrowKey(id) != DepositKey(p) && EscrowKey(id) != PoolKey() && DepositKey(p) != PoolKey()
  {
    hide Prefix;
    if EscrowKey(id) == DepositKey(p) {
      NamespacesDisjoint(FiatEscrow, FiatDeposit, EscrowKey(id));
    }
    if EscrowKey(id) == PoolKey() {
      NamespacesDisjoint(FiatEscrow, FiatPool, PoolKey());
    }
    DepositNotPool(p);
  }

  lemma WriteEscrow(data: State, e: Escrow)
    ensures var d := SaveEscrow(data, e);
      && PoolOf(d) == PoolOf(data)
      && (forall p :: IsDeposit(d, p) <==> IsDeposit(data, p))
      && (forall p :: IsDeposit(data, p) ==> DepositAt(d, p) == DepositAt(data, p))
      && (forall id :: IsEscrow(d, id) <==> id == e.id || IsEscrow(data, id))
      && (forall id :: IsEscrow(d, id) ==> EscrowAt(d, id) == if id == e.id then e else EscrowAt(data, id))
  {
    hide Prefix;
    forall p ensures EscrowKey(e.id) != DepositKey(p) && EscrowKey(e.id) != PoolKey() {
      KeysApart(e.id, p);
    }
    forall id | EscrowKey(id) == EscrowKey(e.id) ensures id == e.id {
      KeyInjective(FiatEscrow, id, FiatEscrow, e.id);
    }
    KeysApart(e.id, []);
  }

  lemma WriteDeposit(data: State, who: Bytes, a: Deposit)
    ensures var d := data[DepositKey(who) := DepositV(a)];
      && PoolOf(d) == PoolOf(data)
      && (forall p :: IsDeposit(d, p) <==> p == who || IsDeposit(data, p))
      && (forall p :: IsDeposit(d, p) ==> DepositAt(d, p) == if p == who then a else DepositAt(data, p))
      && (forall id :: IsEscrow(d, id) <==> IsEscrow(data, id))
      && (forall id :: IsEscrow(data, id) ==> EscrowAt(d, id) == EscrowAt(data, id))
  {
    hide Prefix, Hex;
    forall id ensures EscrowKey(id) != DepositKey(who) {
      KeysApart(id, who);
    }
    forall p | DepositKey(p) == DepositKey(who) ensures p == who {
      KeyInjective(FiatDeposit, Hex(p), FiatDeposit, Hex(who));
      HexInjective(p, who);
    }
    KeysApart([], who);
  }

  lemma WritePool(data: State, pool: Pool)
    ensures var d := data[PoolKey() := PoolV(pool)];
      && PoolOf(d) == pool
      && (forall p :: IsDeposit(d, p) <==> IsDeposit(data, p))
      && (forall p :: IsDeposit(data, p) ==> DepositAt(d, p) == DepositAt(data, p))
      && (forall id :: IsEscrow(d, id) <==> IsEscrow(data, id))
      && (forall id :: IsEscrow(data, id) ==> EscrowAt(d, id) == EscrowAt(data, id))
  {
    hide Prefix, Hex;
    forall id ensures EscrowKey(id) != PoolKey() {
      KeysApart(id, []);
    }
    forall p ensures DepositKey(p) != PoolKey() {
      KeysApart([], p);
    }
  }

  lemma ZeroAtomic()
    ensures Atomic(0.0)
  {
  }

  lemma EmptyInv()
    ensures FiatInv(map[])
  {
  }

  lemma DistributedAtomic(pool: Pool, c: Money)
    requires AtomicPool(pool)
    ensures AtomicPool(Distributed(pool, c))
  {
  }

  lemma SlashAtomic(acc: Deposit, pool: Pool, currency: Currency, s: real)
    requires AtomicDeposit(acc) && AtomicPool(pool)
    ensures AtomicDeposit(Slashed(acc, s)) && AtomicPool(PoolAfterSlash(pool, currency, s))
  {
  }

  lemma NewEscrowAtomic(ctx: Ctx, op: FiatOp)
    requires op.CreateEscrow?
    ensures Atomic(NewEscrow(ctx, op).commission.amount)
  {
  }

  lemma EscrowWriteKeepsInv(data: State, e: Escrow)
    requires FiatInv(data) && Atomic(e.commission.amount)
    ensures FiatInv(SaveEscrow(data, e))
  {
    hide Prefix, Atomic, PoolOf;
    WriteEscrow(data, e);
  }

  lemma DepositWriteKeepsInv(data: State, a: Deposit)
    requires FiatInv(data) && AtomicDeposit(a)
    ensures FiatInv(data[DepositKey(a.provider) := DepositV(a)])
  {
    hide Prefix, Hex, Atomic, PoolOf;
    WriteDeposit(data, a.provider, a);
  }

  lemma PoolWriteKeepsInv(data: State, pool: Pool)
    requires FiatInv(data) && AtomicPool(pool)
    ensures FiatInv(data[PoolKey() := PoolV(pool)])
  {
    hide Prefix, Hex, Atomic, PoolOf, AtomicPool;
    WritePool(data, pool);
  }

  /** Every stored amount keeps at most eight fractional digits. */
  lemma StepKeepsInv(data: State, step: FiatStep)
    requires FiatInv(data)
    ensures FiatInv(After(data, step))
  {
    hide Prefix, Hex, Round8, Atomic, PoolOf, NewEscrow, Distributed, PoolAfterSlash, AtomicPool;
    if Succeeds(data, step) {
      match step.op {
        case CreateEscrow(_, _, _, _, _, _) =>
          NewEscrowAtomic(step.ctx, step.op);
          EscrowWriteKeepsInv(data, NewEscrow(step.ctx, step.op));
        case ReleaseEscrow(id) =>
          var e := EscrowAt(data, id);
          DistributedAtomic(PoolOf(data), e.commission);
          PoolWriteKeepsInv(data, Distributed(PoolOf(data), e.commission));
          EscrowWriteKeepsInv(data[PoolKey() := PoolV(Distributed(PoolOf(data), e.commission))],
                              e.(status := EscrowReleased, releasedAt := step.ctx.now));
        case FundEscrow(id) => EscrowWriteKeepsInv(data, EscrowAt(data, id).(status := EscrowFunded, fundedAt := step.ctx.now));
        case LockEscrow(id) => EscrowWriteKeepsInv(data, EscrowAt(data, id).(status := EscrowLocked));
        case RefundEscrow(id) => EscrowWriteKeepsInv(data, EscrowAt(data, id).(status := EscrowRefunded));
        case SlashDeposit(who, penalty) =>
          var acc := DepositAt(data, who);
          var s := SlashAmount(acc, penalty.amount);
          SlashAtomic(acc, PoolOf(data), penalty.currency, s);
          DepositWriteKeepsInv(data, Slashed(acc, s));
          PoolWriteKeepsInv(data[DepositKey(who) := DepositV(Slashed(acc, s))], PoolAfterSlash(PoolOf(data), penalty.currency, s));
        case DepositFunds(currency, amount) =>
          var acc := DepositOrNew(data, step.sender, currency);
          ZeroAtomic();
          RoundIsAtomic(acc.deposited + amount);
          RoundIsAtomic(acc.available + amount);
          DepositWriteKeepsInv(data, Deposited(acc, amount, step.ctx.now));
        case WithdrawDeposit(amount) =>
          var acc := DepositAt(data, step.sender);
          RoundIsAtomic(acc.available - amount);
          DepositWriteKeepsInv(data, acc.(available := Round8(acc.available - amount), lastWithdrawAt := step.ctx.now));
      }
    }
  }

  // ----- sums over all accounts

  ghost function Total(m: map<Bytes, real>): real {
    if m == map[] then 0.0
    else
      var k :| k in m;
      m[k] + Total(m - {k})
  }

  lemma {:induction false} TotalTakes(m: map<Bytes, real>, k: Bytes)
    requires k in m
    ensures Total(m) == m[k] + Total(m - {k})
    decreases |m|
  {
    var x :| x in m && Total(m) == m[x] + Total(m - {x});
    if x != k {
      TotalTakes(m - {x}, k);
      TotalTakes(m - {k}, x);
      assert m - {x} - {k} == m - {k} - {x};
    }
  }

  lemma TotalUpdate(m: map<Bytes, real>, k: Bytes, v: real)
    ensures Total(m[k := v]) == Total(m) - (if k in m then m[k] else 0.0) + v
  {
    TotalTakes(m[k := v], k);
    assert m[k := v] - {k} == m - {k};
    if k in m {
      TotalTakes(m, k);
    } else {
      assert m - {k} == m;
    }
  }

  predicate IsDepositKey(k: Bytes) { HasPrefix(k, Prefix(FiatDeposit)) }

  ghost function SlashedMap(data: State): map<Bytes, real> {
    map k | k in data && IsDepositKey(k) && data[k].DepositV? :: data[k].deposit.slashed
  }

  ghost function TotalSlashed(data: State): real { Total(SlashedMap(data)) }

  lemma SlashedAfterDeposit(data: State, who: Bytes, a: Deposit)
    ensures TotalSlashed(data[DepositKey(who) := DepositV(a)]) ==
      TotalSlashed(data) - (if IsDeposit(data, who) then DepositAt(data, who).slashed else 0.0) + a.slashed
  {
    hide Prefix, Hex, Total;
    var d := data[DepositKey(who) := DepositV(a)];
    assert SlashedMap(d) == SlashedMap(data)[DepositKey(who) := a.slashed];
    TotalUpdate(SlashedMap(data), DepositKey(who), a.slashed);
  }

  lemma SlashedAfterOther(data: State, k: Bytes, v: Value)
    requires !IsDepositKey(k)
    ensures TotalSlashed(data[k := v]) == TotalSlashed(data)
  {
    hide Prefix;
    assert SlashedMap(data[k := v]) == SlashedMap(data);
  }

  lemma NotDepositKeys(id: Bytes)
    ensures !IsDepositKey(EscrowKey(id)) && !IsDepositKey(PoolKey())
  {
    hide Prefix;
    if IsDepositKey(EscrowKey(id)) {
      NamespacesDisjoint(FiatEscrow, FiatDeposit, EscrowKey(id));
    }
    if IsDepositKey(PoolKey()) {
      NamespacesDisjoint(FiatPool, FiatDeposit, PoolKey());
    }
  }

  // ----- the insurance pool

  /** What a run has paid into the pool by releases, and how often. */
  datatype PoolLedger = PoolLedger(shares: real, income: real, releases: nat, inexact: nat)

  function Share(c: Money): real { Round8(c.amount * (20.0 / 100.0)) }

  function Booked(l: PoolLedger, data: State, step: FiatStep): PoolLedger {
    if !Succeeds(data, step) then l
    else match step.op
      case ReleaseEscrow(id) =>
        var c := EscrowAt(data, id).commission;
        l.(shares := l.shares + Share(c), income := l.income + c.amount, releases := l.releases + 1)
      case SlashDeposit(_, penalty) => if Atomic(penalty.amount) then l else l.(inexact := l.inexact + 1)
      case _ => l
  }

  function BookedAll(l: PoolLedger, data: State, steps: seq<FiatStep>): PoolLedger
    decreases |steps|
  {
    if steps == [] then l else BookedAll(Booked(l, data, steps[0]), After(data, steps[0]), steps[1..])
  }

  function PoolBalance(data: State): real { PoolOf(data).balanceCny + PoolOf(data).balanceUsd }

  /** The pool holds the slashed deposits and the insurance shares, up to one unit of the eighth digit
      per slash of a finer amount; its income is the released commissions, of which five shares miss
      at most two units per release. */
  ghost predicate PoolAccounts(data: State, l: PoolLedger) {
    && Abs(PoolBalance(data) - (TotalSlashed(data) + l.shares)) <= l.inexact as real * TICK
    && PoolOf(data).totalIncome == l.income
    && Abs(5.0 * l.shares - l.income) <= l.releases as real * (2.0 * TICK)
  }

  lemma ShareIsFifth(c: Money)
    requires Atomic(c.amount)
    ensures Abs(5.0 * Share(c) - c.amount) <= 2.0 * TICK && Atomic(Share(c))
  {
    var k := (c.amount * UNIT).Floor;
    var y := c.amount * (20.0 / 100.0) * UNIT;
    assert y == k as real / 5.0;
    var r := RoundHalfAway(y);
    HalfAwayError(y);
    assert -2.5 <= 5.0 * r as real - k as real <= 2.5;
    assert -2 <= 5 * r - k <= 2;
    RoundIsAtomic(c.amount * (20.0 / 100.0));
  }

  /** The rounding of x + s moves an eight-digit x by s, exactly when s has eight digits, and by no
      more than half a unit otherwise. */
  lemma RoundAdds(x: real, s: real)
    requires Atomic(x)
    ensures Abs(Round8(x + s) - x - s) <= 0.5 * TICK
    ensures Atomic(s) ==> Round8(x + s) == x + s && Round8(x - s) == x - s
    ensures Abs(Round8(x - s) - x + s) <= 0.5 * TICK
  {
    hide Round8, Atomic;
    RoundError(x + s);
    RoundError(x - s);
    if Atomic(s) {
      AtomicAdd(x, s);
      RoundExact(x + s);
      RoundExact(x - s);
    }
  }

  lemma ReleaseBooked(data: State, l: PoolLedger, step: FiatStep)
    requires FiatInv(data) && PoolAccounts(data, l) && step.op.ReleaseEscrow? && Succeeds(data, step)
    ensures PoolAccounts(After(data, step), Booked(l, data, step))
  {
    hide Prefix, Hex, Round8, Atomic, Total, SlashedMap, PoolOf, Share;
    var e := EscrowAt(data, step.op.id);
    var pool, c := PoolOf(data), e.commission;
    var after := Distributed(pool, c);
    var mid := data[PoolKey() := PoolV(after)];
    WritePool(data, after);
    WriteEscrow(mid, e.(status := EscrowReleased, releasedAt := step.ctx.now));
    NotDepositKeys(e.id);
    SlashedAfterOther(data, PoolKey(), PoolV(after));
    SlashedAfterOther(mid, EscrowKey(e.id), EscrowV(e.(status := EscrowReleased, releasedAt := step.ctx.now)));
    DistributedExact(pool, c);
    ShareIsFifth(c);
  }

  lemma DistributedExact(pool: Pool, c: Money)
    requires AtomicPool(pool) && Atomic(c.amount)
    ensures var p := Distributed(pool, c);
      p.balanceCny + p.balanceUsd == pool.balanceCny + pool.balanceUsd + Share(c) &&
      p.totalIncome == pool.totalIncome + c.amount
  {
    hide Round8, Atomic;
    ShareIsFifth(c);
    RoundExact(c.amount);
    RoundAdds(pool.balanceUsd, Share(c));
    RoundAdds(pool.balanceCny, Share(c));
    RoundAdds(pool.totalIncome, c.amount);
  }

  lemma SlashBooked(data: State, l: PoolLedger, step: FiatStep)
    requires FiatInv(data) && PoolAccounts(data, l) && step.op.SlashDeposit? && Succeeds(data, step)
    ensures PoolAccounts(After(data, step), Booked(l, data, step))
  {
    hide Prefix, Hex, Round8, Atomic, Total, SlashedMap, PoolOf, Share;
    var who, penalty := step.op.provider, step.op.penalty;
    var acc, pool := DepositAt(data, who), PoolOf(data);
    var s := SlashAmount(acc, penalty.amount);
    var mid := data[DepositKey(who) := DepositV(Slashed(acc, s))];
    var after := PoolAfterSlash(pool, penalty.currency, s);
    WriteDeposit(data, who, Slashed(acc, s));
    WritePool(mid, after);
    SlashedAfterDeposit(data, who, Slashed(acc, s));
    NotDepositKeys([]);
    SlashedAfterOther(mid, PoolKey(), PoolV(after));
    RoundAdds(acc.slashed, s);
    RoundAdds(pool.balanceUsd, s);
    RoundAdds(pool.balanceCny, s);
  }

  lemma StepBooked(data: State, l: PoolLedger, step: FiatStep)
    requires FiatInv(data) && PoolAccounts(data, l)
    ensures PoolAccounts(After(data, step), Booked(l, data, step))
  {
    hide Prefix, Hex, Round8, Atomic, Total, SlashedMap, PoolOf, Share;
    if Succeeds(data, step) {
      match step.op {
        case ReleaseEscrow(_) => ReleaseBooked(data, l, step);
        case SlashDeposit(_, _) => SlashBooked(data, l, step);
        case DepositFunds(currency, amount) =>
          var acc := DepositOrNew(data, step.sender, currency);
          WriteDeposit(data, step.sender, Deposited(acc, amount, step.ctx.now));
          SlashedAfterDeposit(data, step.sender, Deposited(acc, amount, step.ctx.now));
        case WithdrawDeposit(amount) =>
          var a := DepositAt(data, step.sender);
          var acc := a.(available := Round8(a.available - amount), lastWithdrawAt := step.ctx.now);
          WriteDeposit(data, step.sender, acc);
          SlashedAfterDeposit(data, step.sender, acc);
        case CreateEscrow(_, _, _, _, _, _) => EscrowWriteBooked(data, l, NewEscrow(step.ctx, step.op));
        case FundEscrow(id) => EscrowWriteBooked(data, l, EscrowAt(data, id).(status := EscrowFunded, fundedAt := step.ctx.now));
        case LockEscrow(id) => EscrowWriteBooked(data, l, EscrowAt(data, id).(status := EscrowLocked));
        case RefundEscrow(id) => EscrowWriteBooked(data, l, EscrowAt(data, id).(status := EscrowRefunded));
      }
    }
  }

  /** The currency in which a step pays into the pool, if it does. */
  function PaidIn(data: State, step: FiatStep): Option<Currency> {
    if !Succeeds(data, step) then None
    else match step.op
      case SlashDeposit(_, penalty) => Some(penalty.currency)
      case ReleaseEscrow(id) => Some(EscrowAt(data, id).commission.currency)
      case _ => None
  }

  /** The two balances of the pool do not mix: a step moves none but the one it pays into. */
  lemma CurrenciesApart(data: State, step: FiatStep)
    ensures PaidIn(data, step) != Some(Usd) ==> PoolOf(After(data, step)).balanceUsd == PoolOf(data).balanceUsd
    ensures PaidIn(data, step) in {None, Some(Usd)} ==> PoolOf(After(data, step)).balanceCny == PoolOf(data).balanceCny
  {
    hide Round8, PoolOf, Deposited, Slashed, MayWithdraw;
    if !Succeeds(data, step) {
      FailureChangesNothing(data, step);
    } else if step.op.SlashDeposit? || step.op.DepositFunds? || step.op.WithdrawDeposit? {
      DepositPool(data, step);
    } else {
      EscrowPool(data, step);
    }
  }

  lemma DepositPool(data: State, step: FiatStep)
    requires Succeeds(data, step) && (step.op.SlashDeposit? || step.op.DepositFunds? || step.op.WithdrawDeposit?)
    ensures PoolOf(After(data, step)) == match step.op
      case SlashDeposit(p, penalty) =>
        PoolAfterSlash(PoolOf(data), penalty.currency, SlashAmount(DepositAt(data, p), penalty.amount))
      case _ => PoolOf(data)
  {
    hide Prefix, Hex, Round8, Slashed, Deposited, MayWithdraw, PoolAfterSlash, SlashAmount;
    DepositNotPool(step.sender);
  }

  lemma EscrowPool(data: State, step: FiatStep)
    requires Succeeds(data, step) && !step.op.SlashDeposit? && !step.op.DepositFunds? && !step.op.WithdrawDeposit?
    ensures PoolOf(After(data, step)) ==
      if step.op.ReleaseEscrow? then Distributed(PoolOf(data), EscrowAt(data, step.op.id).commission) else PoolOf(data)
  {
    hide Prefix, Hex, Distributed, NewEscrow;
    forall id ensures EscrowKey(id) != PoolKey() {
      KeysApart(id, []);
    }
  }

  lemma EscrowWriteBooked(data: State, l: PoolLedger, e: Escrow)
    requires PoolAccounts(data, l)
    ensures PoolAccounts(SaveEscrow(data, e), l)
  {
    hide Prefix, Total, SlashedMap, PoolOf;
    WriteEscrow(data, e);
    NotDepositKeys(e.id);
    SlashedAfterOther(data, EscrowKey(e.id), EscrowV(e));
  }

  /** Insurance pool conservation over every run. */
  lemma {:induction false} PoolConserved(data: State, l: PoolLedger, steps: seq<FiatStep>)
    requires FiatInv(data) && PoolAccounts(data, l)
    ensures FiatInv(AfterAll(data, steps)) && PoolAccounts(AfterAll(data, steps), BookedAll(l, data, steps))
    decreases |steps|
  {
    hide FiatInv, PoolAccounts, Booked, After;
    if steps != [] {
      StepKeepsInv(data, steps[0]);
      StepBooked(data, l, steps[0]);
      PoolConserved(After(data, steps[0]), Booked(l, data, steps[0]), steps[1..]);
    }
  }

  /** From the empty tree, with penalties of at most eight digits, conservation is exact. */
  lemma PoolConservedExactly(steps: seq<FiatStep>)
    requires forall i :: 0 <= i < |steps| && steps[i].op.SlashDeposit? ==> Atomic(steps[i].op.penalty.amount)
    ensures var d := AfterAll(map[], steps); var l := BookedAll(PoolLedger(0.0, 0.0, 0, 0), map[], steps);
      PoolBalance(d) == TotalSlashed(d) + l.shares && PoolOf(d).totalIncome == l.income
  {
    hide Atomic, Booked, After;
    EmptyInv();
    var l := PoolLedger(0.0, 0.0, 0, 0);
    assert PoolAccounts(map[], l) by {
      assert SlashedMap(map[]) == map[];
    }
    PoolConserved(map[], l, steps);
    NoInexact(l, map[], steps);
  }

  lemma {:induction false} NoInexact(l: PoolLedger, data: State, steps: seq<FiatStep>)
    requires forall i :: 0 <= i < |steps| && steps[i].op.SlashDeposit? ==> Atomic(steps[i].op.penalty.amount)
    ensures BookedAll(l, data, steps).inexact == l.inexact
    decreases |steps|
  {
    hide Atomic, Succeeds, After;
    if steps != [] {
      NoInexact(Booked(l, data, steps[0]), After(data, steps[0]), steps[1..]);
    }
  }

  // ----- one provider's deposit

  /** What a run took out of one account, and how many of its moves had finer amounts. */
  datatype AccountLedger = AccountLedger(withdrawn: real, inexact: nat)

  predicate Touches(step: FiatStep, who: Bytes) {
    match step.op
    case SlashDeposit(p, _) => p == who
    case DepositFunds(_, _) | WithdrawDeposit(_) => step.sender == who
    case _ => false
  }

  function MoveAmount(op: FiatOp): real {
    match op
    case SlashDeposit(_, penalty) => penalty.amount
    case DepositFunds(_, amount) => amount
    case WithdrawDeposit(amount) => amount
    case _ => 0.0
  }

  function Entered(l: AccountLedger, data: State, step: FiatStep, who: Bytes): AccountLedger {
    if !Succeeds(data, step) || !Touches(step, who) then l
    else
      var m := if Atomic(MoveAmount(step.op)) then l else l.(inexact := l.inexact + 1);
      if step.op.WithdrawDeposit? then m.(withdrawn := m.withdrawn + step.op.amount) else m
  }

  function EnteredAll(l: AccountLedger, data: State, steps: seq<FiatStep>, who: Bytes): AccountLedger
    decreases |steps|
  {
    if steps == [] then l else EnteredAll(Entered(l, data, steps[0], who), After(data, steps[0]), steps[1..], who)
  }

  /** Everything deposited is available, slashed or withdrawn, up to one unit of the eighth digit per
      move of a finer amount. */
  predicate AccountBalances(data: State, l: AccountLedger, who: Bytes) {
    if IsDeposit(data, who) then
      var a := DepositAt(data, who);
      Abs(a.deposited - (a.available + a.slashed + l.withdrawn)) <= l.inexact as real * TICK
    else l == AccountLedger(0.0, 0)
  }

  lemma MoveBalances(a: Deposit, b: Deposit, l: AccountLedger, x: real, m: AccountLedger)
    requires AtomicDeposit(a) && Abs(a.deposited - (a.available + a.slashed + l.withdrawn)) <= l.inexact as real * TICK
    requires m.inexact == if Atomic(x) then l.inexact else l.inexact + 1
    requires
      || (b == a.(deposited := Round8(a.deposited + x), available := Round8(a.available + x),
                  lastDepositAt := b.lastDepositAt, tier := b.tier) && m.withdrawn == l.withdrawn)
      || (b == a.(available := Round8(a.available - x), slashed := Round8(a.slashed + x)) && m.withdrawn == l.withdrawn)
      || (b == a.(available := Round8(a.available - x), lastWithdrawAt := b.lastWithdrawAt) && m.withdrawn == l.withdrawn + x)
    ensures Abs(b.deposited - (b.available + b.slashed + m.withdrawn)) <= m.inexact as real * TICK
  {
    hide Round8, Atomic;
    RoundAdds(a.deposited, x);
    RoundAdds(a.available, x);
    RoundAdds(a.slashed, x);
  }

  lemma StepBalances(data: State, l: AccountLedger, step: FiatStep, who: Bytes)
    requires FiatInv(data) && AccountBalances(data, l, who)
    ensures AccountBalances(After(data, step), Entered(l, data, step, who), who)
  {
    hide Prefix, Hex, Round8, Atomic, PoolOf, FiatInv, EscrowSpec, WithdrawSpec, Deposited;
    if Succeeds(data, step) {
      match step.op {
        case SlashDeposit(_, _) => SlashBalances(data, l, step, who);
        case DepositFunds(_, _) => DepositBalances(data, l, step, who);
        case WithdrawDeposit(_) => WithdrawBalances(data, l, step, who);
        case BadFiatPayload =>
        case _ => EscrowStepKeepsDeposits(data, step, who);
      }
    } else {
      FailureChangesNothing(data, step);
    }
  }

  lemma DepositBalances(data: State, l: AccountLedger, step: FiatStep, who: Bytes)
    requires FiatInv(data) && AccountBalances(data, l, who) && step.op.DepositFunds?
    ensures AccountBalances(After(data, step), Entered(l, data, step, who), who)
  {
    hide Prefix, Hex, Round8, Atomic, PoolOf;
    var a := DepositOrNew(data, step.sender, step.op.currency);
    var b := Deposited(a, step.op.amount, step.ctx.now);
    WriteDeposit(data, step.sender, b);
    if step.sender == who {
      ZeroAtomic();
      MoveBalances(a, b, l, step.op.amount, Entered(l, data, step, who));
    }
  }

  lemma WithdrawBalances(data: State, l: AccountLedger, step: FiatStep, who: Bytes)
    requires FiatInv(data) && AccountBalances(data, l, who) && step.op.WithdrawDeposit? && Succeeds(data, step)
    ensures AccountBalances(After(data, step), Entered(l, data, step, who), who)
  {
    hide Prefix, Hex, Round8, Atomic, PoolOf;
    var a := DepositAt(data, step.sender);
    var b := a.(available := Round8(a.available - step.op.amount), lastWithdrawAt := step.ctx.now);
    WriteDeposit(data, step.sender, b);
    if step.sender == who {
      MoveBalances(a, b, l, step.op.amount, Entered(l, data, step, who));
    }
  }

  lemma SlashBalances(data: State, l: AccountLedger, step: FiatStep, who: Bytes)
    requires FiatInv(data) && AccountBalances(data, l, who) && step.op.SlashDeposit? && Succeeds(data, step)
    ensures AccountBalances(After(data, step), Entered(l, data, step, who), who)
  {
    hide Prefix, Hex, Round8, Atomic, PoolOf;
    var p, penalty := step.op.provider, step.op.penalty;
    var a := DepositAt(data, p);
    var s := SlashAmount(a, penalty.amount);
    WriteDeposit(data, p, Slashed(a, s));
    WritePool(data[DepositKey(p) := DepositV(Slashed(a, s))], PoolAfterSlash(PoolOf(data), penalty.currency, s));
    if p == who {
      var exact := AccountLedger(l.withdrawn, if Atomic(s) then l.inexact else l.inexact + 1);
      MoveBalances(a, Slashed(a, s), l, s, exact);
    }
  }

  lemma EscrowStepKeepsDeposits(data: State, step: FiatStep, who: Bytes)
    requires step.op.CreateEscrow? || step.op.FundEscrow? || step.op.ReleaseEscrow? || step.op.LockEscrow? || step.op.RefundEscrow?
    ensures IsDeposit(After(data, step), who) <==> IsDeposit(data, who)
    ensures IsDeposit(data, who) ==> DepositAt(After(data, step), who) == DepositAt(data, who)
  {
    hide Prefix, Hex, Distributed, NewEscrow;
    forall id ensures EscrowKey(id) != DepositKey(who) && PoolKey() != DepositKey(who) {
      KeysApart(id, who);
    }
  }

  /** The deposit ledger of every provider balances over every run. */
  lemma {:induction false} DepositsBalance(data: State, l: AccountLedger, steps: seq<FiatStep>, who: Bytes)
    requires FiatInv(data) && AccountBalances(data, l, who)
    ensures AccountBalances(AfterAll(data, steps), EnteredAll(l, data, steps, who), who)
    decreases |steps|
  {
    hide FiatInv, AccountBalances, Entered, After;
    if steps != [] {
      StepKeepsInv(data, steps[0]);
      StepBalances(data, l, steps[0], who);
      DepositsBalance(After(data, steps[0]), Entered(l, data, steps[0], who), steps[1..], who);
    }
  }

  // ----- available balances and the tier floor

  predicate NonNegative(op: FiatOp) { MoveAmount(op) >= 0.0 }

  predicate NoOverdraft(data: State, who: Bytes) {
    IsDeposit(data, who) ==> DepositAt(data, who).available >= 0.0
  }

  /** With non-negative amounts no step overdraws an account. */
  lemma StepNoOverdraft(data: State, step: FiatStep, who: Bytes)
    requires FiatInv(data) && NoOverdraft(data, who) && NonNegative(step.op)
    ensures NoOverdraft(After(data, step), who)
  {
    hide Prefix, Hex, Round8, Atomic, PoolOf;
    RoundedZero();
    if Succeeds(data, step) {
      match step.op {
        case SlashDeposit(p, penalty) =>
          var a := DepositAt(data, p);
          var s := SlashAmount(a, penalty.amount);
          RoundMonotone(0.0, a.available - s);
          WriteDeposit(data, p, Slashed(a, s));
          WritePool(data[DepositKey(p) := DepositV(Slashed(a, s))], PoolAfterSlash(PoolOf(data), penalty.currency, s));
        case DepositFunds(currency, amount) =>
          var a := DepositOrNew(data, step.sender, currency);
          if step.sender == who {
            RoundMonotone(0.0, a.available + amount);
          }
          WriteDeposit(data, step.sender, Deposited(a, amount, step.ctx.now));
        case WithdrawDeposit(amount) =>
          var a := DepositAt(data, step.sender);
          WriteDeposit(data, step.sender, a.(available := Round8(a.available - amount), lastWithdrawAt := step.ctx.now));
        case _ => EscrowStepKeepsDeposits(data, step, who);
      }
    }
  }

  lemma RoundedZero()
    ensures Round8(0.0) == 0.0
  {
  }

  lemma {:induction false} RunNoOverdraft(data: State, steps: seq<FiatStep>, who: Bytes)
    requires FiatInv(data) && NoOverdraft(data, who)
    requires forall i :: 0 <= i < |steps| ==> NonNegative(steps[i].op)
    ensures NoOverdraft(AfterAll(data, steps), who)
    decreases |steps|
  {
    hide FiatInv, NoOverdraft, After;
    if steps != [] {
      StepKeepsInv(data, steps[0]);
      StepNoOverdraft(data, steps[0], who);
      RunNoOverdraft(After(data, steps[0]), steps[1..], who);
    }
  }

  /** The tier of an amount is the highest one whose floor it reaches; below all floors it is the lowest. */
  lemma TierIsHighest(available: real, tier: Tier)
    ensures available >= MinDeposit(TierFor(available)) || TierFor(available) == Starter
    ensures MinDeposit(tier) <= available ==> MinDeposit(tier) <= MinDeposit(TierFor(available))
  {
  }

  /** A withdrawal succeeds exactly when the account is unbonded, holds the amount and keeps at least
      the floor of its tier, which is then what is left. */
  lemma WithdrawKeepsFloor(data: State, ctx: Ctx, sender: Bytes, amount: real)
    requires FiatInv(data) && IsDeposit(data, sender)
    ensures var a := DepositAt(data, sender); var (d, r) := WithdrawSpec(data, ctx, sender, amount);
      && (r.Ok? <==> MayWithdraw(a, amount, ctx.now))
      && (r.Ok? ==> IsDeposit(d, sender) && DepositAt(d, sender).tier == a.tier
                    && DepositAt(d, sender).available >= MinDeposit(a.tier) >= 1000.0)
      && (!r.Ok? ==> d == data)
  {
    hide Prefix, Hex, Round8;
    var a := DepositAt(data, sender);
    WriteDeposit(data, sender, a.(available := Round8(a.available - amount), lastWithdrawAt := ctx.now));
  }

  // ----- the life of an escrow

  /** The total of a new escrow is within one unit of the eighth digit of fee * (1 + bps / 10000), and
      it is fee plus commission exactly when the fee has at most eight fractional digits. */
  lemma EscrowTotal(ctx: Ctx, op: FiatOp)
    requires op.CreateEscrow?
    ensures var e := NewEscrow(ctx, op);
      && Abs(e.total.amount - op.fee.amount * (1.0 + EffectiveBps(op.bps) as real / 10000.0)) <= TICK
      && (e.total.amount == op.fee.amount + e.commission.amount <==> Atomic(op.fee.amount))
  {
    hide Round8, Atomic;
    hide BpsOf;
    var fee, bps := op.fee.amount, EffectiveBps(op.bps);
    RoundedTotal(fee, BpsOf(fee, bps));
    BpsOnTop(fee, bps);
  }

  lemma BpsOnTop(amount: real, bps: int)
    ensures amount + BpsOf(amount, bps) == amount * (1.0 + bps as real / 10000.0)
  {
  }

  lemma RoundedTotal(fee: real, exact: real)
    ensures Abs(Round8(fee + Round8(exact)) - (fee + exact)) <= TICK
    ensures Round8(fee + Round8(exact)) == fee + Round8(exact) <==> Atomic(fee)
  {
    hide Round8, Atomic;
    var c := Round8(exact);
    RoundError(exact);
    RoundError(fee + c);
    RoundIsAtomic(exact);
    AtomicAdd(c, fee);
    assert c + fee == fee + c;
    RoundExact(fee + c);
  }

  predicate Ended(data: State, id: Bytes) {
    IsEscrow(data, id) && (EscrowAt(data, id).status == EscrowReleased || EscrowAt(data, id).status == EscrowRefunded)
  }

  predicate Recreates(step: FiatStep, id: Bytes) {
    step.op.CreateEscrow? && NewEscrow(step.ctx, step.op).id == id
  }

  predicate Pays(data: State, step: FiatStep, id: Bytes) {
    Succeeds(data, step) && step.op == ReleaseEscrow(id)
  }

  predicate Refunds(data: State, step: FiatStep, id: Bytes) {
    Succeeds(data, step) && step.op == RefundEscrow(id)
  }

  function PaysIn(data: State, steps: seq<FiatStep>, id: Bytes): nat
    decreases |steps|
  {
    if steps == [] then 0
    else (if Pays(data, steps[0], id) then 1 else 0) + PaysIn(After(data, steps[0]), steps[1..], id)
  }

  function RefundsIn(data: State, steps: seq<FiatStep>, id: Bytes): nat
    decreases |steps|
  {
    if steps == [] then 0
    else (if Refunds(data, steps[0], id) then 1 else 0) + RefundsIn(After(data, steps[0]), steps[1..], id)
  }

  lemma EscrowStep(data: State, step: FiatStep, id: Bytes)
    requires FiatInv(data) && !Recreates(step, id)
    ensures Ended(data, id) ==> Ended(After(data, step), id) && !Pays(data, step, id) && !Refunds(data, step, id)
    ensures Pays(data, step, id) || Refunds(data, step, id) ==> Ended(After(data, step), id)
  {
    hide Prefix, Hex, Round8, Atomic, PoolOf, NewEscrow, Distributed;
    if Succeeds(data, step) {
      match step.op {
        case CreateEscrow(_, _, _, _, _, _) => WriteEscrow(data, NewEscrow(step.ctx, step.op));
        case ReleaseEscrow(x) =>
          var pool := Distributed(PoolOf(data), EscrowAt(data, x).commission);
          WritePool(data, pool);
          WriteEscrow(data[PoolKey() := PoolV(pool)], EscrowAt(data, x).(status := EscrowReleased, releasedAt := step.ctx.now));
        case FundEscrow(x) => WriteEscrow(data, EscrowAt(data, x).(status := EscrowFunded, fundedAt := step.ctx.now));
        case LockEscrow(x) => WriteEscrow(data, EscrowAt(data, x).(status := EscrowLocked));
        case RefundEscrow(x) => WriteEscrow(data, EscrowAt(data, x).(status := EscrowRefunded));
        case _ => DepositStepKeepsEscrows(data, step, id);
      }
    }
  }

  lemma DepositStepKeepsEscrows(data: State, step: FiatStep, id: Bytes)
    requires step.op.SlashDeposit? || step.op.DepositFunds? || step.op.WithdrawDeposit?
    ensures IsEscrow(After(data, step), id) <==> IsEscrow(data, id)
    ensures IsEscrow(data, id) ==> EscrowAt(After(data, step), id) == EscrowAt(data, id)
  {
    hide Prefix, Hex, Round8;
    forall p ensures EscrowKey(id) != DepositKey(p) && EscrowKey(id) != PoolKey() {
      KeysApart(id, p);
    }
  }

  /** Between creations of an escrow id, any run pays its commission out or refunds it at most once in
      all, and not at all once it has ended. */
  lemma {:induction false} PaidAtMostOnce(data: State, steps: seq<FiatStep>, id: Bytes)
    requires FiatInv(data) && forall i :: 0 <= i < |steps| ==> !Recreates(steps[i], id)
    ensures PaysIn(data, steps, id) + RefundsIn(data, steps, id) <= if Ended(data, id) then 0 else 1
    decreases |steps|
  {
    hide FiatInv, After, Ended, Pays, Refunds, Recreates;
    if steps != [] {
      EscrowStep(data, steps[0], id);
      StepKeepsInv(data, steps[0]);
      PaidAtMostOnce(After(data, steps[0]), steps[1..], id);
      NotBoth(data, steps[0], id);
    }
  }

  lemma NotBoth(data: State, step: FiatStep, id: Bytes)
    ensures !(Pays(data, step, id) && Refunds(data, step, id))
  {
  }

  /** A step that fails changes nothing. */
  lemma FailureChangesNothing(data: State, step: FiatStep)
    requires !Succeeds(data, step)
    ensures After(data, step) == data
  {
    hide Prefix, Hex, Round8;
  }
}
