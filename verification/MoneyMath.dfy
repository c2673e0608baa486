/** Decimal amounts as exact rationals that are rounded to eight digits, half away from zero, each
    time they are written. */
module MoneyMath {
  import opened Records

  const UNIT: real := 100000000.0

  function RoundHalfAway(y: real): int {
    if y >= 0.0 then (y + 0.5).Floor else -((0.5 - y).Floor)
  }

  /** The value of the decimal string written for x at scale 8. */
  function Round8(x: real): real {
    RoundHalfAway(x * UNIT) as real / UNIT
  }

  /** x has at most eight fractional digits. */
  predicate Atomic(x: real) {
    (x * UNIT).Floor as real == x * UNIT
  }

  lemma HalfAwayError(y: real)
    ensures -0.5 <= RoundHalfAway(y) as real - y <= 0.5
  {
  }

  /** One rounding is off by at most half a unit of the eighth digit. */
  lemma RoundError(x: real)
    ensures -0.000000005 <= Round8(x) - x <= 0.000000005
  {
  }

  lemma RoundIsAtomic(x: real)
    ensures Atomic(Round8(x))
  {
  }

  /** Rounding changes nothing exactly on amounts of at most eight fractional digits. */
  lemma RoundExact(x: real)
    ensures Round8(x) == x <==> Atomic(x)
  {
  }

  lemma AtomicAdd(x: real, y: real)
    requires Atomic(x)
    ensures Atomic(x + y) <==> Atomic(y)
    ensures Atomic(x - y) <==> Atomic(y)
  {
    var i := (x * UNIT).Floor;
    assert (x + y) * UNIT == i as real + y * UNIT;
    assert (x - y) * UNIT == i as real - y * UNIT;
    ShiftFloor(i, y * UNIT);
  }

  lemma IntegerFloor(z: real, k: int)
    requires z == k as real
    ensures z.Floor as real == z
  {
  }

  lemma ShiftFloor(i: int, z: real)
    ensures (i as real + z).Floor as real == i as real + z <==> z.Floor as real == z
    ensures (i as real - z).Floor as real == i as real - z <==> z.Floor as real == z
  {
    if z.Floor as real == z {
      IntegerFloor(i as real + z, i + z.Floor);
      IntegerFloor(i as real - z, i - z.Floor);
    }
    if (i as real + z).Floor as real == i as real + z {
      IntegerFloor(z, (i as real + z).Floor - i);
    }
    if (i as real - z).Floor as real == i as real - z {
      IntegerFloor(z, i - (i as real - z).Floor);
    }
  }

  lemma RoundMonotone(x: real, y: real)
    requires x <= y
    ensures Round8(x) <= Round8(y)
  {
    assert x * UNIT <= y * UNIT;
    assert RoundHalfAway(x * UNIT) <= RoundHalfAway(y * UNIT);
  }

  // ----- the money type

  datatype MoneyResult = MoneyOk(m: Money) | MoneyError

  function AddMoney(a: Money, b: Money): MoneyResult {
    if a.currency != b.currency then MoneyError else MoneyOk(Money(a.currency, Round8(a.amount + b.amount)))
  }

  function SubMoney(a: Money, b: Money): MoneyResult {
    if a.currency != b.currency || a.amount - b.amount < 0.0 then MoneyError
    else MoneyOk(Money(a.currency, Round8(a.amount - b.amount)))
  }

  function BpsOf(amount: real, bps: int): real {
    amount * (bps as real / 10000.0)
  }

  function ApplyBps(m: Money, bps: int): Money {
    Money(m.currency, Round8(BpsOf(m.amount, bps)))
  }

  /** Amounts of one currency always add; they subtract exactly when the result is not negative. The
      result is the sum or difference, exactly when that has at most eight digits. */
  lemma MoneyResults(a: Money, b: Money)
    ensures AddMoney(a, b).MoneyOk? <==> a.currency == b.currency
    ensures SubMoney(a, b).MoneyOk? <==> a.currency == b.currency && b.amount <= a.amount
    ensures AddMoney(a, b).MoneyOk? ==>
      AddMoney(a, b).m.currency == a.currency && (AddMoney(a, b).m.amount == a.amount + b.amount <==> Atomic(a.amount + b.amount))
    ensures SubMoney(a, b).MoneyOk? ==>
      SubMoney(a, b).m.currency == a.currency && (SubMoney(a, b).m.amount == a.amount - b.amount <==> Atomic(a.amount - b.amount))
  {
    hide Round8, Atomic;
    RoundExact(a.amount + b.amount);
    RoundExact(a.amount - b.amount);
  }

  /** Subtracting what was added gives the amount back exactly, for eight-digit amounts. */
  lemma AddThenSub(a: Money, b: Money)
    requires a.currency == b.currency && Atomic(a.amount) && Atomic(b.amount) && a.amount >= 0.0
    ensures AddMoney(a, b).MoneyOk? && SubMoney(AddMoney(a, b).m, b) == MoneyOk(a)
  {
    AtomicAdd(a.amount, b.amount);
    RoundExact(a.amount + b.amount);
    RoundExact(a.amount);
  }
}
