/** The ledgers of single accounts and escrows over whole runs, summed from the amounts asked for. */
module FiatLedgers {
  import opened ByteStrings
  import opened Codec
  import opened Keys
  import opened Engine
  import opened Records
  import opened MoneyMath
  import opened Fiat
  import opened FiatRuns

  // ----- when a step succeeds

  /** A step succeeds exactly when its records allow it; payments in and new escrows always do. */
  lemma SucceedsWhen(data: State, step: FiatStep)
    ensures Succeeds(data, step) <==>
      match step.op
      case CreateEscrow(_, _, _, _, _, _) => true
      case DepositFunds(_, _) => true
      case BadFiatPayload => false
      case SlashDeposit(provider, _) => IsDeposit(data, provider)
      case WithdrawDeposit(amount) =>
        IsDeposit(data, step.sender) &&
        var a := DepositAt(data, step.sender);
        && step.ctx.now - a.lastDepositAt >= 604800 && amount <= a.available
        && Round8(a.available - amount) >= (match a.tier case Enterprise => 100000.0 case Pro => 10000.0 case Starter => 1000.0)
      case _ => IsEscrow(data, step.op.id) && MayMove(EscrowAt(data, step.op.id), step.op)
  {
    hide Prefix, Hex, Round8, PoolOf, NewEscrow, Distributed;
  }

  // ----- what a run paid into, took from and slashed off one account

  /** Amounts that moved: paid in, withdrawn, taken by penalties, and the penalties themselves; and how
      many of the amounts asked for were finer than eight digits. */
  datatype Flows = Flows(paidIn: real, withdrawn: real, taken: real, penalties: real, finer: nat)

  const NO_FLOWS := Flows(0.0, 0.0, 0.0, 0.0, 0)

  function Standing(data: State, who: Bytes): Deposit {
    if IsDeposit(data, who) then DepositAt(data, who) else Deposit(who, Usd, 0.0, 0.0, 0.0, 0, 0, Starter)
  }

  function FlowOf(data: State, step: FiatStep, who: Bytes): Flows {
    if !Succeeds(data, step) then NO_FLOWS
    else match step.op
      case DepositFunds(_, amount) =>
        if step.sender == who then NO_FLOWS.(paidIn := amount, finer := Finer(amount)) else NO_FLOWS
      case WithdrawDeposit(amount) =>
        if step.sender == who then NO_FLOWS.(withdrawn := amount, finer := Finer(amount)) else NO_FLOWS
      case SlashDeposit(provider, penalty) =>
        if provider == who then
          var available := Standing(data, who).available;
          NO_FLOWS.(taken := if available < penalty.amount then available else penalty.amount,
                    penalties := penalty.amount, finer := Finer(penalty.amount))
        else NO_FLOWS
      case _ => NO_FLOWS
  }

  function Finer(amount: real): nat { if Atomic(amount) then 0 else 1 }

  function Plus(f: Flows, g: Flows): Flows {
    Flows(f.paidIn + g.paidIn, f.withdrawn + g.withdrawn, f.taken + g.taken, f.penalties + g.penalties, f.finer + g.finer)
  }

  function FlowsOf(data: State, steps: seq<FiatStep>, who: Bytes): Flows
    decreases |steps|
  {
    if steps == [] then NO_FLOWS else Plus(FlowOf(data, steps[0], who), FlowsOf(After(data, steps[0]), steps[1..], who))
  }

  /** The account moved from a to b as the flows say, up to one unit of the eighth digit per finer amount. */
  predicate Explains(f: Flows, a: Deposit, b: Deposit) {
    && Abs(b.deposited - (a.deposited + f.paidIn)) <= f.finer as real * TICK
    && Abs(b.slashed - (a.slashed + f.taken)) <= f.finer as real * TICK
    && Abs(b.available - (a.available + f.paidIn - f.withdrawn - f.taken)) <= f.finer as real * TICK
    && f.taken <= f.penalties
  }

  lemma ExplainsJoins(f: Flows, g: Flows, a: Deposit, b: Deposit, c: Deposit)
    requires Explains(f, a, b) && Explains(g, b, c)
    ensures Explains(Plus(f, g), a, c)
  {
    assert (f.finer + g.finer) as real * TICK == f.finer as real * TICK + g.finer as real * TICK;
  }

  lemma MoveExplained(x: real, s: real)
    requires Atomic(x)
    ensures Abs(Round8(x + s) - (x + s)) <= Finer(s) as real * TICK
    ensures Abs(Round8(x - s) - (x - s)) <= Finer(s) as real * TICK
  {
    hide Round8, Atomic;
    RoundAdds(x, s);
  }

  lemma DepositFlows(data: State, step: FiatStep, who: Bytes)
    requires FiatInv(data) && step.op.DepositFunds?
    ensures Explains(FlowOf(data, step, who), Standing(data, who), Standing(After(data, step), who))
  {
    hide Prefix, Hex, Round8, Atomic, PoolOf, Finer;
    var a := DepositOrNew(data, step.sender, step.op.currency);
    WriteDeposit(data, step.sender, Deposited(a, step.op.amount, step.ctx.now));
    ZeroAtomic();
    MoveExplained(a.deposited, step.op.amount);
    MoveExplained(a.available, step.op.amount);
  }

  lemma WithdrawFlows(data: State, step: FiatStep, who: Bytes)
    requires FiatInv(data) && step.op.WithdrawDeposit? && Succeeds(data, step)
    ensures Explains(FlowOf(data, step, who), Standing(data, who), Standing(After(data, step), who))
  {
    hide Prefix, Hex, Round8, Atomic, PoolOf, Finer;
    var a := DepositAt(data, step.sender);
    WriteDeposit(data, step.sender, a.(available := Round8(a.available - step.op.amount), lastWithdrawAt := step.ctx.now));
    MoveExplained(a.available, step.op.amount);
  }

  lemma SlashFlows(data: State, step: FiatStep, who: Bytes)
    requires FiatInv(data) && step.op.SlashDeposit? && Succeeds(data, step)
    ensures Explains(FlowOf(data, step, who), Standing(data, who), Standing(After(data, step), who))
  {
    hide Prefix, Hex, Round8, Atomic, PoolOf;
    var p, penalty := step.op.provider, step.op.penalty;
    var a := DepositAt(data, p);
    var s := SlashAmount(a, penalty.amount);
    WriteDeposit(data, p, Slashed(a, s));
    WritePool(data[DepositKey(p) := DepositV(Slashed(a, s))], PoolAfterSlash(PoolOf(data), penalty.currency, s));
    MoveExplained(a.available, s);
    MoveExplained(a.slashed, s);
  }

  lemma StepFlows(data: State, step: FiatStep, who: Bytes)
    requires FiatInv(data)
    ensures Explains(FlowOf(data, step, who), Standing(data, who), Standing(After(data, step), who))
  {
    hide Prefix, Hex, Round8, Atomic, PoolOf, FiatInv, EscrowSpec, WithdrawSpec, SlashSpec, Deposited;
    if Succeeds(data, step) {
      match step.op {
        case SlashDeposit(_, _) => SlashFlows(data, step, who);
        case DepositFunds(_, _) => DepositFlows(data, step, who);
        case WithdrawDeposit(_) => WithdrawFlows(data, step, who);
        case BadFiatPayload =>
        case _ => EscrowStepKeepsDeposits(data, step, who);
      }
    } else {
      FailureChangesNothing(data, step);
    }
  }

  /** Over every run an account moves by what was paid in, withdrawn and taken by penalties, and no more is
      taken than the penalties; exactly so when every amount has at most eight digits. */
  lemma {:induction false} RunFlows(data: State, steps: seq<FiatStep>, who: Bytes)
    requires FiatInv(data)
    ensures Explains(FlowsOf(data, steps, who), Standing(data, who), Standing(AfterAll(data, steps), who))
    decreases |steps|
  {
    hide FiatInv, Explains, FlowOf, After, Standing, Plus;
    if steps == [] {
      NothingFlows(Standing(data, who));
    } else {
      var d := After(data, steps[0]);
      StepFlows(data, steps[0], who);
      StepKeepsInv(data, steps[0]);
      RunFlows(d, steps[1..], who);
      ExplainsJoins(FlowOf(data, steps[0], who), FlowsOf(d, steps[1..], who),
                    Standing(data, who), Standing(d, who), Standing(AfterAll(data, steps), who));
    }
  }

  lemma NothingFlows(a: Deposit)
    ensures Explains(NO_FLOWS, a, a)
  {
  }

  /** Every penalty of the run found enough available. */
  predicate Covered(data: State, steps: seq<FiatStep>, who: Bytes)
    decreases |steps|
  {
    steps == [] ||
    (FlowOf(data, steps[0], who).taken == FlowOf(data, steps[0], who).penalties && Covered(After(data, steps[0]), steps[1..], who))
  }

  lemma {:induction false} TakenWhenCovered(data: State, steps: seq<FiatStep>, who: Bytes)
    requires FiatInv(data)
    ensures FlowsOf(data, steps, who).taken <= FlowsOf(data, steps, who).penalties
    ensures FlowsOf(data, steps, who).taken == FlowsOf(data, steps, who).penalties <==> Covered(data, steps, who)
    decreases |steps|
  {
    hide FiatInv, FlowOf, After;
    if steps != [] {
      StepFlows(data, steps[0], who);
      StepKeepsInv(data, steps[0]);
      TakenWhenCovered(After(data, steps[0]), steps[1..], who);
    }
  }

  lemma EightDigitFlow(data: State, step: FiatStep, who: Bytes)
    requires Touches(step, who) ==> Atomic(MoveAmount(step.op))
    ensures FlowOf(data, step, who).finer == 0
  {
    hide Atomic, Succeeds, Standing;
  }

  lemma {:induction false} EightDigitFlows(data: State, steps: seq<FiatStep>, who: Bytes)
    requires forall i :: 0 <= i < |steps| && Touches(steps[i], who) ==> Atomic(MoveAmount(steps[i].op))
    ensures FlowsOf(data, steps, who).finer == 0
    decreases |steps|
  {
    hide After, FlowOf, Touches, MoveAmount, Atomic;
    if steps != [] {
      assert forall i :: 0 <= i < |steps[1..]| ==> steps[1..][i] == steps[i + 1];
      EightDigitFlow(data, steps[0], who);
      EightDigitFlows(After(data, steps[0]), steps[1..], who);
    }
  }

  /** With amounts of at most eight digits: deposited grew by exactly what was paid in, slashed by no more
      than the penalties, and by exactly their sum when, and only when, each of them was covered. */
  lemma ExactLedger(data: State, steps: seq<FiatStep>, who: Bytes)
    requires FiatInv(data)
    requires forall i :: 0 <= i < |steps| && Touches(steps[i], who) ==> Atomic(MoveAmount(steps[i].op))
    ensures var a, b, f := Standing(data, who), Standing(AfterAll(data, steps), who), FlowsOf(data, steps, who);
      && b.deposited == a.deposited + f.paidIn
      && b.slashed == a.slashed + f.taken <= a.slashed + f.penalties
      && b.available == a.available + f.paidIn - f.withdrawn - f.taken
      && (b.slashed == a.slashed + f.penalties <==> Covered(data, steps, who))
  {
    hide FiatInv, FlowsOf, Covered, AfterAll, Standing, Atomic;
    RunFlows(data, steps, who);
    EightDigitFlows(data, steps, who);
    TakenWhenCovered(data, steps, who);
  }

  // ----- every payment was funded

  /** A created escrow carries the fee and the parties asked for, and as its commission the rate asked for,
      or twelve percent when none is, of the fee, rounded to eight digits. */
  lemma CreatedAsAsked(ctx: Ctx, op: FiatOp)
    requires op.CreateEscrow?
    ensures var e := NewEscrow(ctx, op);
      && e.fee == op.fee && e.consumer == op.consumer && e.provider == op.provider && e.orderId == op.orderId
      && e.status == EscrowPending && e.commission.currency == op.fee.currency == e.total.currency
      && (op.id != [] ==> e.id == op.id)
      && Abs(e.commission.amount - op.fee.amount * (if op.bps == 0 then 0.12 else op.bps as real / 10000.0)) <= 0.5 * TICK
  {
    hide Round8;
    RoundError(BpsOf(op.fee.amount, EffectiveBps(op.bps)));
    assert 1200 as real / 10000.0 == 0.12;
  }

  predicate Open(data: State, id: Bytes) {
    IsEscrow(data, id) && (EscrowAt(data, id).status == EscrowFunded || EscrowAt(data, id).status == EscrowLocked)
  }

  predicate Funds(data: State, step: FiatStep, id: Bytes) {
    Succeeds(data, step) && step.op == FundEscrow(id)
  }

  function FundsIn(data: State, steps: seq<FiatStep>, id: Bytes): nat
    decreases |steps|
  {
    if steps == [] then 0
    else (if Funds(data, steps[0], id) then 1 else 0) + FundsIn(After(data, steps[0]), steps[1..], id)
  }

  function OpenCount(data: State, id: Bytes): nat { if Open(data, id) then 1 else 0 }

  /** An escrow action that succeeds moves its own escrow, and no other. */
  lemma EscrowMoves(data: State, step: FiatStep, id: Bytes)
    requires FiatInv(data) && Succeeds(data, step)
    requires step.op.FundEscrow? || step.op.ReleaseEscrow? || step.op.LockEscrow? || step.op.RefundEscrow?
    ensures IsEscrow(data, step.op.id) && MayMove(EscrowAt(data, step.op.id), step.op)
    ensures IsEscrow(After(data, step), id) <==> IsEscrow(data, id)
    ensures IsEscrow(data, id) ==>
      if id == step.op.id then Moved(EscrowAt(data, id), EscrowAt(After(data, step), id), step.op, step.ctx.now)
      else EscrowAt(After(data, step), id) == EscrowAt(data, id)
  {
    hide Prefix, Hex, Round8, Atomic, AtomicDeposit, AtomicPool, PoolOf, Distributed;
    var e := EscrowAt(data, step.op.id);
    match step.op {
      case ReleaseEscrow(_) =>
        var pool := Distributed(PoolOf(data), e.commission);
        WritePool(data, pool);
        WriteEscrow(data[PoolKey() := PoolV(pool)], e.(status := EscrowReleased, releasedAt := step.ctx.now));
      case FundEscrow(_) => WriteEscrow(data, e.(status := EscrowFunded, fundedAt := step.ctx.now));
      case LockEscrow(_) => WriteEscrow(data, e.(status := EscrowLocked));
      case RefundEscrow(_) => WriteEscrow(data, e.(status := EscrowRefunded));
    }
  }

  lemma EscrowStepCounts(data: State, step: FiatStep, id: Bytes)
    requires FiatInv(data) && !Recreates(step, id)
    ensures OpenCount(data, id) + (if Funds(data, step, id) then 1 else 0) ==
      OpenCount(After(data, step), id) + (if Pays(data, step, id) then 1 else 0) + (if Refunds(data, step, id) then 1 else 0)
  {
    hide Prefix, Hex, FiatInv, NewEscrow, After, Succeeds;
    if !Succeeds(data, step) {
      FailureChangesNothing(data, step);
    } else {
      match step.op {
        case CreateEscrow(_, _, _, _, _, _) => CreateMovesNoOther(data, step, id);
        case SlashDeposit(_, _) => DepositStepKeepsEscrows(data, step, id);
        case DepositFunds(_, _) => DepositStepKeepsEscrows(data, step, id);
        case WithdrawDeposit(_) => DepositStepKeepsEscrows(data, step, id);
        case BadFiatPayload => BadPayloadFails(data, step);
        case _ => EscrowMoves(data, step, id);
      }
    }
  }

  lemma CreateMovesNoOther(data: State, step: FiatStep, id: Bytes)
    requires step.op.CreateEscrow? && !Recreates(step, id)
    ensures IsEscrow(After(data, step), id) <==> IsEscrow(data, id)
    ensures IsEscrow(data, id) ==> EscrowAt(After(data, step), id) == EscrowAt(data, id)
  {
    hide Prefix, NewEscrow;
    WriteEscrow(data, NewEscrow(step.ctx, step.op));
  }

  lemma BadPayloadFails(data: State, step: FiatStep)
    requires step.op.BadFiatPayload?
    ensures !Succeeds(data, step)
  {
  }

  /** Between creations of an escrow id, fundings balance: each is still open, released or refunded. */
  lemma {:induction false} FundingsBalance(data: State, steps: seq<FiatStep>, id: Bytes)
    requires FiatInv(data) && forall i :: 0 <= i < |steps| ==> !Recreates(steps[i], id)
    ensures OpenCount(data, id) + FundsIn(data, steps, id) ==
      OpenCount(AfterAll(data, steps), id) + PaysIn(data, steps, id) + RefundsIn(data, steps, id)
    decreases |steps|
  {
    hide FiatInv, After, Open, Funds, Pays, Refunds, Recreates, OpenCount;
    if steps != [] {
      EscrowStepCounts(data, steps[0], id);
      StepKeepsInv(data, steps[0]);
      FundingsBalance(After(data, steps[0]), steps[1..], id);
    }
  }

  /** A new escrow is pending; from there on, no more is paid or refunded than was funded before: each
      commission paid was preceded by a successful funding since the creation. */
  lemma PaidOnlyIfFunded(data: State, create: FiatStep, steps: seq<FiatStep>, id: Bytes)
    requires FiatInv(data) && create.op.CreateEscrow? && NewEscrow(create.ctx, create.op).id == id
    requires forall i :: 0 <= i < |steps| ==> !Recreates(steps[i], id)
    ensures var d := After(data, create);
      && IsEscrow(d, id) && EscrowAt(d, id).status == EscrowPending
      && PaysIn(d, steps, id) + RefundsIn(d, steps, id) <= FundsIn(d, steps, id) <= 1 + PaysIn(d, steps, id) + RefundsIn(d, steps, id)
  {
    hide FiatInv, AfterAll, PaysIn, RefundsIn, FundsIn, Recreates, Prefix;
    StepKeepsInv(data, create);
    WriteEscrow(data, NewEscrow(create.ctx, create.op));
    FundingsBalance(After(data, create), steps, id);
  }
}
