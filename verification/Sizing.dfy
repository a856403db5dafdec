/** Position sizing (risk/sizing.py): the stepwise computation, and the optimum it reaches. */
module Sizing {
  import opened Numbers
  import opened Domain

  datatype Limits = Limits(riskPct: real, maxLoss: Option<real>, maxPositionPct: real)
  {
    predicate Valid() {
      riskPct > 0.0 && maxPositionPct > 0.0 && (maxLoss.Some? ==> maxLoss.value > 0.0)
    }
  }

  predicate ExceedsNotional(q: real, equity: real, entry: real, limits: Limits) {
    q * entry > equity * limits.maxPositionPct
  }

  /** Holding q shares respects the risk budget, the dollar-loss cap and the notional cap. */
  predicate Fits(q: real, equity: real, entry: real, stop: real, limits: Limits) {
    && q * (entry - stop) <= equity * limits.riskPct
    && (limits.maxLoss.Some? ==> q * (entry - stop) <= limits.maxLoss.value)
    && !ExceedsNotional(q, equity, entry, limits)
  }

  function RiskQuantity(equity: real, entry: real, stop: real, limits: Limits): real
    requires stop < entry
  {
    equity * limits.riskPct / (entry - stop)
  }

  function LossQuantity(entry: real, stop: real, limits: Limits): Option<real>
    requires stop < entry
  {
    if limits.maxLoss.Some? then Some(limits.maxLoss.value / (entry - stop)) else None
  }

  function NotionalQuantity(equity: real, entry: real, limits: Limits): Option<real> {
    if entry > 0.0 then Some(equity * limits.maxPositionPct / entry) else None
  }

  function Least(x: real, y: Option<real>): real {
    if y.Some? then Min(x, y.value) else x
  }

  /** The largest real quantity that fits. */
  function ExactQuantity(equity: real, entry: real, stop: real, limits: Limits): real
    requires stop < entry
  {
    Least(Least(RiskQuantity(equity, entry, stop, limits), LossQuantity(entry, stop, limits)),
          NotionalQuantity(equity, entry, limits))
  }

  /** Four decimals, rounded to 1e-12 first and then floored. */
  function FloorFractional(q: real): real {
    Floor(Round(q * TICK as real, 100_000_000)) as real / TICK as real
  }

  function PositionSize(equity: real, entry: real, stop: real, limits: Limits, fractionable: bool): Result<real>
  {
    if stop >= entry then Failure
    else
      var q := ExactQuantity(equity, entry, stop, limits);
      Success(Max(if fractionable then FloorFractional(q) else Floor(q) as real, 0.0))
  }

  lemma QuotientBound(q: real, budget: real, unit: real)
    requires unit > 0.0
    ensures q <= budget / unit <==> q * unit <= budget
  {
    var d := budget / unit;
    assert d * unit == budget;
    if q <= d {
      TimesMonotone(q, d, unit);
    } else {
      ProductSign(q - d, unit);
      assert (q - d) * unit == q * unit - budget;
    }
  }

  lemma RiskBound(q: real, equity: real, entry: real, stop: real, limits: Limits)
    requires stop < entry
    ensures q <= RiskQuantity(equity, entry, stop, limits) <==> q * (entry - stop) <= equity * limits.riskPct
    ensures var byLoss := LossQuantity(entry, stop, limits);
            byLoss.Some? ==> (q <= byLoss.value <==> q * (entry - stop) <= limits.maxLoss.value)
  {
    QuotientBound(q, equity * limits.riskPct, entry - stop);
    if limits.maxLoss.Some? {
      QuotientBound(q, limits.maxLoss.value, entry - stop);
    }
  }

  lemma NotionalBound(q: real, equity: real, entry: real, limits: Limits)
    requires equity >= 0.0 && q >= 0.0 && limits.Valid()
    ensures var byNotional := NotionalQuantity(equity, entry, limits);
            !ExceedsNotional(q, equity, entry, limits) <==> (byNotional.Some? ==> q <= byNotional.value)
  {
    if entry > 0.0 {
      QuotientBound(q, equity * limits.maxPositionPct, entry);
    } else {
      ProductSign(q, entry);
      ProductSign(equity, limits.maxPositionPct);
    }
  }

  /** For a non-negative quantity of a stock, fitting is staying at or below the exact quantity. */
  lemma FitsIffAtMostExact(q: real, equity: real, entry: real, stop: real, limits: Limits)
    requires stop < entry && equity >= 0.0 && q >= 0.0 && limits.Valid()
    ensures Fits(q, equity, entry, stop, limits) <==> q <= ExactQuantity(equity, entry, stop, limits)
  {
    hide RiskQuantity, NotionalQuantity;
    RiskBound(q, equity, entry, stop, limits);
    NotionalBound(q, equity, entry, limits);
  }

  lemma ZeroFits(equity: real, entry: real, stop: real, limits: Limits)
    requires equity > 0.0 && limits.Valid()
    ensures Fits(0.0, equity, entry, stop, limits)
  {
    ProductSign(equity, limits.riskPct);
    ProductSign(equity, limits.maxPositionPct);
  }

  /** The whole-share size is the largest integer quantity that fits all three limits. */
  lemma WholeShareOptimum(equity: real, entry: real, stop: real, limits: Limits, n: int)
    requires stop < entry && equity > 0.0 && n >= 0 && limits.Valid()
    ensures var size := PositionSize(equity, entry, stop, limits, false).value;
            && size == size.Floor as real
            && size >= 0.0
            && Fits(size, equity, entry, stop, limits)
            && (Fits(n as real, equity, entry, stop, limits) <==> n as real <= size)
  {
    hide Fits, ExactQuantity, FloorFractional;
    var exact := ExactQuantity(equity, entry, stop, limits);
    FitsIffAtMostExact(0.0, equity, entry, stop, limits);
    ZeroFits(equity, entry, stop, limits);
    FitsIffAtMostExact(Floor(exact) as real, equity, entry, stop, limits);
    FitsIffAtMostExact(n as real, equity, entry, stop, limits);
  }

  /** The fractional size is a multiple of 1/10000 within a hair above and a tick below the exact quantity. */
  lemma FractionalSizeBounds(equity: real, entry: real, stop: real, limits: Limits)
    requires stop < entry && equity > 0.0 && limits.Valid()
    ensures var size := PositionSize(equity, entry, stop, limits, true).value;
            var exact := ExactQuantity(equity, entry, stop, limits);
            && (size * 10_000.0) == (size * 10_000.0).Floor as real
            && exact - 0.0001 - 0.0000000000005 < size <= exact + 0.0000000000005
  {
    var exact := ExactQuantity(equity, entry, stop, limits);
    FitsIffAtMostExact(0.0, equity, entry, stop, limits);
    ZeroFits(equity, entry, stop, limits);
    assert exact >= 0.0;
    var scaled := Round(exact * 10_000.0, 100_000_000);
    assert Abs(scaled - exact * 10_000.0) <= 0.000000005;
    var n := Floor(scaled);
    assert FloorFractional(exact) * 10_000.0 == n as real;
    assert n >= 0 by {
      HalfEvenMonotone(0.0, exact * 10_000.0 * 100_000_000.0);
      assert scaled == HalfEven(exact * 10_000.0 * 100_000_000.0) as real / 100_000_000.0;
    }
  }

  /** calculate_position_size, quantity reassigned limit by limit. */
  method CalculatePositionSize(equity: real, entry: real, stop: real, limits: Limits, fractionable: bool)
    returns (size: Result<real>)
    requires limits.Valid()
    ensures size == PositionSize(equity, entry, stop, limits, fractionable)
  {
    hide RiskQuantity, LossQuantity, NotionalQuantity, FloorFractional, ExceedsNotional, Floor;
    if stop >= entry {
      return Failure;
    }
    ghost var byRisk := RiskQuantity(equity, entry, stop, limits);
    ghost var byLoss := Least(byRisk, LossQuantity(entry, stop, limits));
    ghost var exact := ExactQuantity(equity, entry, stop, limits);
    FractionalOfNonPositive(exact);
    var quantity := RiskQuantity(equity, entry, stop, limits);
    if !fractionable {
      quantity := Floor(quantity) as real;
    }
    if !fractionable && quantity < 1.0 {
      return Success(0.0);
    }
    if quantity <= 0.0 {
      return Success(0.0);
    }
    LossQuantityGiven(entry, stop, limits);
    if limits.maxLoss.Some? {
      FloorOfMin(byRisk, LossQuantity(entry, stop, limits).value);
      quantity := Min(quantity, LossQuantity(entry, stop, limits).value);
      if !fractionable {
        quantity := Floor(quantity) as real;
      }
      if !fractionable && quantity < 1.0 {
        return Success(0.0);
      }
      if quantity <= 0.0 {
        return Success(0.0);
      }
    }
    assert quantity == if fractionable then byLoss else Floor(byLoss) as real;
    SizeIsPositive(equity, entry, stop, limits);
    NotionalBound(quantity, equity, entry, limits);
    if ExceedsNotional(quantity, equity, entry, limits) {
      FloorOfMin(byLoss, NotionalQuantity(equity, entry, limits).value);
      quantity := NotionalQuantity(equity, entry, limits).value;
      if !fractionable {
        quantity := Floor(quantity) as real;
      }
    } else if NotionalQuantity(equity, entry, limits).Some? {
      FloorOfMin(byLoss, NotionalQuantity(equity, entry, limits).value);
    }
    assert quantity == if fractionable then exact else Floor(exact) as real;
    if fractionable {
      quantity := FloorFractional(quantity);
    }
    size := Success(Max(quantity, 0.0));
  }

  /** Flooring before or after a further limit makes no difference once that limit is floored too. */
  lemma FloorOfMin(x: real, y: real)
    ensures Floor(Min(Floor(x) as real, y)) == Floor(Min(x, y))
    ensures y < Floor(x) as real ==> Floor(Min(x, y)) == Floor(y)
    ensures Floor(x) as real <= y ==> Floor(Min(x, y)) == Floor(x)
  {
  }

  lemma LossQuantityGiven(entry: real, stop: real, limits: Limits)
    requires stop < entry
    ensures LossQuantity(entry, stop, limits).Some? <==> limits.maxLoss.Some?
  {
  }

  /** A positive risk quantity needs positive equity. */
  lemma SizeIsPositive(equity: real, entry: real, stop: real, limits: Limits)
    requires stop < entry && limits.Valid()
    ensures RiskQuantity(equity, entry, stop, limits) > 0.0 ==> equity > 0.0
  {
    QuotientSign(equity * limits.riskPct, entry - stop);
    if equity <= 0.0 {
      ProductSign(-equity, limits.riskPct);
      assert equity * limits.riskPct == -((-equity) * limits.riskPct);
    }
  }

  lemma FractionalOfNonPositive(q: real)
    ensures q <= 0.0 ==> FloorFractional(q) <= 0.0
  {
    if q <= 0.0 {
      var x := q * TICK as real * 100_000_000.0;
      HalfEvenMonotone(x, 0.0);
      HalfEvenExact(0);
      assert Round(q * TICK as real, 100_000_000) == HalfEven(x) as real / 100_000_000.0;
    }
  }

  /** What rounding to twelve decimals before flooring may add to a fractional size. */
  function Allowance(fractionable: bool): real {
    if fractionable then 0.0000000000005 else 0.0
  }

  /** The smallest positive size. */
  function Unit(fractionable: bool): real {
    if fractionable then 0.0001 else 1.0
  }

  /** A positive size comes from positive equity, is a unit or more, and meets every limit up to the allowance. */
  lemma {:induction false} PositiveSizeFits(equity: real, entry: real, stop: real, limits: Limits, fractionable: bool)
    requires limits.Valid()
    ensures var size := PositionSize(equity, entry, stop, limits, fractionable);
            size.Success? && size.value > 0.0 ==>
              equity > 0.0 && stop < entry && size.value >= Unit(fractionable) &&
              Fits(size.value - Allowance(fractionable), equity, entry, stop, limits)
  {
    hide Fits, RiskQuantity, LossQuantity, NotionalQuantity, FloorFractional;
    if stop < entry && PositionSize(equity, entry, stop, limits, fractionable).value > 0.0 {
      var size, exact := PositionSize(equity, entry, stop, limits, fractionable).value,
        ExactQuantity(equity, entry, stop, limits);
      FractionalOfNonPositive(exact);
      SizeIsPositive(equity, entry, stop, limits);
      if fractionable {
        FractionalSizeBounds(equity, entry, stop, limits);
        assert size * 10_000.0 >= 1.0;
        FitsIffAtMostExact(size - Allowance(true), equity, entry, stop, limits);
      } else {
        WholeShareOptimum(equity, entry, stop, limits, 0);
      }
    }
  }
}
