/** Fill, slippage and exit prices (replay/mechanics.py). */
module Mechanics {
  import opened Numbers
  import opened Domain

  function Scaled(price: real, factor: real): real {
    Round(price * factor, TICK)
  }

  function ApplySlippage(price: real, buy: bool, bps: real): real {
    if bps <= 0.0 then price
    else Scaled(price, if buy then 1.0 + bps / 10_000.0 else 1.0 - bps / 10_000.0)
  }

  /** The raw fill of a buy stop-limit order on one bar. */
  function BuyStopLimitFill(bar: Bar, stop: real, limit: real): Option<real> {
    if bar.open > limit then None
    else if bar.high < stop then None
    else if Max(bar.open, stop) > limit then None
    else Some(Round(Max(bar.open, stop), CENT))
  }

  function EntryFillPrice(raw: real, limit: real, bps: real): (fill: real)
    ensures fill <= limit
  {
    Min(ApplySlippage(raw, true, bps), limit)
  }

  function StopExitPrice(bar: Bar, p: Position, bps: real): real {
    ApplySlippage(Min(p.stopPrice, bar.open), false, bps)
  }

  function ProfitTargetPrice(p: Position, targetR: real): real {
    Round(p.entryPrice + targetR * p.RiskPerShare(), CENT)
  }

  function CloseExitPrice(bar: Bar, bps: real): real {
    ApplySlippage(bar.close, false, bps)
  }

  /** A candidate tightens a long position's stop if it is higher, a short one's if it is lower. */
  predicate Tightens(quantity: real, stop: real, candidate: real) {
    if quantity < 0.0 then candidate < stop else candidate > stop
  }

  predicate ShouldUpdateStop(p: Position, candidate: real) {
    Tightens(p.quantity, p.stopPrice, candidate)
  }

  /** The stop after offering candidates one by one. */
  function Offered(quantity: real, stop: real, candidates: seq<real>): (r: real)
    ensures r == stop || r in candidates
    ensures !Tightens(quantity, r, stop)
    ensures forall c :: c in candidates ==> !Tightens(quantity, r, c)
  {
    if candidates == [] then stop
    else
      var before := Offered(quantity, stop, candidates[..|candidates| - 1]);
      var c := candidates[|candidates| - 1];
      assert candidates == candidates[..|candidates| - 1] + [c];
      if Tightens(quantity, before, c) then c else before
  }

  /** In whatever order candidates are offered, the tightest of them wins. */
  lemma {:induction false} OfferOrderIrrelevant(quantity: real, stop: real, a: seq<real>, b: seq<real>)
    requires forall c :: c in a <==> c in b
    ensures Offered(quantity, stop, a) == Offered(quantity, stop, b)
  {
  }

  // ---------------------------------------------------------------- when slippage is adverse

  /** What it takes for a value to round to at least, or at most, an integer: a tie goes to the even side. */
  lemma {:induction false} HalfEvenReaches(x: real, n: int)
    ensures HalfEven(x) >= n <==> x > n as real - 0.5 || (x == n as real - 0.5 && n % 2 == 0)
    ensures HalfEven(x) <= n <==> x < n as real + 0.5 || (x == n as real + 0.5 && n % 2 == 0)
  {
    if HalfEven(x) >= n {
      assert x >= n as real - 0.5;
    }
    if HalfEven(x) <= n {
      assert x <= n as real + 0.5;
    }
  }

  /** Comparing a rounded amount with a price is comparing whole ticks. */
  lemma {:induction false} RoundAgainst(x: real, price: real)
    ensures Round(x, TICK) >= price <==> HalfEven(x * 10_000.0) >= Ceil(price * 10_000.0)
    ensures Round(x, TICK) <= price <==> HalfEven(x * 10_000.0) <= Floor(price * 10_000.0)
  {
    hide HalfEven;
    var n := HalfEven(x * 10_000.0);
    assert Round(x, TICK) == n as real / 10_000.0;
    assert n as real / 10_000.0 >= price <==> n as real >= price * 10_000.0;
    assert n as real / 10_000.0 <= price <==> n as real <= price * 10_000.0;
  }

  /** The unrounded slipped price, in ticks. */
  function SlippedTicks(price: real, buy: bool, bps: real): real {
    price * (if buy then 1.0 + bps / 10_000.0 else 1.0 - bps / 10_000.0) * 10_000.0
  }

  /**
   * A purchase fills at its price or higher exactly if the slipped price is past the middle of the tick below the
   * first tick not under the price, or in that middle with an even tick above.
   */
  lemma {:induction false} BuySlippageAdverseIff(price: real, bps: real)
    requires bps > 0.0
    ensures var x, c := SlippedTicks(price, true, bps), Ceil(price * 10_000.0);
            ApplySlippage(price, true, bps) >= price <==> x > c as real - 0.5 || (x == c as real - 0.5 && c % 2 == 0)
  {
    hide Round, HalfEven, Ceil;
    var slipped := price * (1.0 + bps / 10_000.0);
    assert SlippedTicks(price, true, bps) == slipped * 10_000.0;
    RoundAgainst(slipped, price);
    HalfEvenReaches(SlippedTicks(price, true, bps), Ceil(price * 10_000.0));
  }

  /** A sale fills at its price or lower exactly in the mirrored case. */
  lemma {:induction false} SaleSlippageAdverseIff(price: real, bps: real)
    requires bps > 0.0
    ensures var x, f := SlippedTicks(price, false, bps), Floor(price * 10_000.0);
            ApplySlippage(price, false, bps) <= price <==> x < f as real + 0.5 || (x == f as real + 0.5 && f % 2 == 0)
  {
    hide Round, HalfEven, Floor;
    var slipped := price * (1.0 - bps / 10_000.0);
    assert SlippedTicks(price, false, bps) == slipped * 10_000.0;
    RoundAgainst(slipped, price);
    HalfEvenReaches(SlippedTicks(price, false, bps), Floor(price * 10_000.0));
  }

  /** The price is a whole or a half number of ticks. */
  predicate OnHalfTick(price: real) {
    Floor(price * 20_000.0) as real == price * 20_000.0
  }

  ghost predicate AdverseAt(price: real, bps: real) {
    ApplySlippage(price, false, bps) <= price <= ApplySlippage(price, true, bps)
  }

  lemma {:induction false} HalfTickIsAdverse(price: real, bps: real)
    requires price >= 0.0 && OnHalfTick(price)
    ensures AdverseAt(price, bps)
  {
    hide ApplySlippage, SlippedTicks;
    if price == 0.0 {
      NothingSlips(bps);
    } else if bps > 0.0 {
      var t := price * 10_000.0;
      BuySlippageAdverseIff(price, bps);
      SaleSlippageAdverseIff(price, bps);
      HalfTicks(price);
      SlippedMoves(price, bps);
    } else {
      NoSlippage(price, bps);
    }
  }

  lemma {:induction false} NoSlippage(price: real, bps: real)
    requires bps <= 0.0
    ensures AdverseAt(price, bps)
  {
  }

  lemma {:induction false} NothingSlips(bps: real)
    ensures AdverseAt(0.0, bps)
  {
    assert HalfEven(0.0) == 0;
  }

  lemma {:induction false} NearInteger(t: real, n: int)
    requires t == n as real || t == n as real + 0.5
    ensures Floor(t) == n
    ensures Ceil(t) == if t == n as real then n else n + 1
  {
  }

  /** A price on a half tick is at most half a tick away from both neighbours. */
  lemma {:induction false} HalfTicks(price: real)
    requires OnHalfTick(price)
    ensures price * 10_000.0 >= Ceil(price * 10_000.0) as real - 0.5
    ensures price * 10_000.0 <= Floor(price * 10_000.0) as real + 0.5
  {
    var t, h := price * 10_000.0, Floor(price * 20_000.0);
    var n := h / 2;
    assert t == n as real || t == n as real + 0.5;
    NearInteger(t, n);
  }

  lemma {:induction false} SlippedMoves(price: real, bps: real)
    requires price > 0.0 && bps > 0.0
    ensures SlippedTicks(price, false, bps) < price * 10_000.0 < SlippedTicks(price, true, bps)
  {
    ProductSign(price, bps);
    assert SlippedTicks(price, true, bps) == price * 10_000.0 + price * bps;
    assert SlippedTicks(price, false, bps) == price * 10_000.0 - price * bps;
  }

  /** The slippage that moves a price to a given number of ticks. */
  lemma {:induction false} Reached(price: real, ticks: real)
    requires price > 0.0
    ensures var bps := (ticks - price * 10_000.0) / price; SlippedTicks(price, true, bps) == ticks
    ensures var bps := (price * 10_000.0 - ticks) / price; SlippedTicks(price, false, bps) == ticks
  {
    var up := (ticks - price * 10_000.0) / price;
    var down := (price * 10_000.0 - ticks) / price;
    assert price * up == ticks - price * 10_000.0;
    assert price * down == price * 10_000.0 - ticks;
    assert SlippedTicks(price, true, up) == price * 10_000.0 + price * up;
    assert SlippedTicks(price, false, down) == price * 10_000.0 - price * down;
  }

  /** Off the half ticks some slippage rounds in the trader's favour. */
  lemma {:induction false} SomeSlippageFavours(price: real) returns (bps: real)
    requires price > 0.0 && !OnHalfTick(price)
    ensures bps > 0.0 && !AdverseAt(price, bps)
  {
    hide ApplySlippage, SlippedTicks;
    var t := price * 10_000.0;
    var f := Floor(t);
    var aim := (t + f as real + 0.5) / 2.0;
    OffHalfTick(price);
    Reached(price, aim);
    if t < f as real + 0.5 {
      bps := (aim - t) / price;
      QuotientSign(aim - t, price);
      BuySlippageAdverseIff(price, bps);
    } else {
      bps := (t - aim) / price;
      QuotientSign(t - aim, price);
      SaleSlippageAdverseIff(price, bps);
    }
  }

  lemma {:induction false} OffHalfTick(price: real)
    requires !OnHalfTick(price)
    ensures price * 10_000.0 != Floor(price * 10_000.0) as real
    ensures price * 10_000.0 != Floor(price * 10_000.0) as real + 0.5
    ensures Ceil(price * 10_000.0) == Floor(price * 10_000.0) + 1
  {
    var t, f := price * 10_000.0, Floor(price * 10_000.0);
    assert price * 20_000.0 == t + t;
    assert t == f as real ==> Floor(t + t) == 2 * f;
    assert t == f as real + 0.5 ==> Floor(t + t) == 2 * f + 1;
  }

  /** Slippage never favours the trader, at whatever rate, exactly if the price is a whole or half number of ticks. */
  lemma {:induction false} SlippageAdverseIffHalfTick(price: real)
    requires price > 0.0
    ensures (forall bps :: AdverseAt(price, bps)) <==> OnHalfTick(price)
  {
    hide AdverseAt, OnHalfTick;
    if OnHalfTick(price) {
      forall bps ensures AdverseAt(price, bps) {
        HalfTickIsAdverse(price, bps);
      }
    } else {
      var bps := SomeSlippageFavours(price);
    }
  }

  /** A purchase off those ticks that fills lower ... */
  lemma {:induction false} OffGridBuyCanFillLower()
    ensures ApplySlippage(0.00004, true, 1.0) == 0.0
  {
    assert 0.00004 * (1.0 + 1.0 / 10_000.0) * 10_000.0 == 0.40004;
    assert HalfEven(0.40004) == 0;
  }

  /** ... and a sale that fills higher. */
  lemma {:induction false} OffGridSaleCanFillHigher()
    ensures ApplySlippage(0.00006, false, 1.0) == 0.0001
  {
    assert 0.00006 * (1.0 - 1.0 / 10_000.0) * 10_000.0 == 0.59994;
    assert HalfEven(0.59994) == 1;
  }

  /** A buy stop-limit order fills exactly if the bar opens within the limit and trades up to a stop within it. */
  lemma {:induction false} BuyFillIsTraded(bar: Bar, stop: real, limit: real)
    ensures BuyStopLimitFill(bar, stop, limit).Some? <==> bar.open <= limit && stop <= limit && stop <= bar.high
    ensures BuyStopLimitFill(bar, stop, limit).Some? ==>
              BuyStopLimitFill(bar, stop, limit).value == Round(Max(bar.open, stop), CENT)
  {
    hide Round;
  }

  /** Share entries are rounded to cents first, so their slippage is adverse at every rate, up to the limit. */
  lemma {:induction false} ShareEntryIsAdverse(bar: Bar, stop: real, limit: real, bps: real)
    requires bar.open >= 0.0 && BuyStopLimitFill(bar, stop, limit).Some?
    ensures var raw := BuyStopLimitFill(bar, stop, limit).value;
            Min(raw, limit) <= EntryFillPrice(raw, limit, bps) <= limit
  {
    hide ApplySlippage, OnHalfTick, HalfEven;
    var price := Max(bar.open, stop);
    var cents := HalfEven(price * 100.0);
    WholeHalfTicks(cents as real / 100.0, 200 * cents);
    HalfEvenReaches(price * 100.0, 0);
    HalfTickIsAdverse(cents as real / 100.0, bps);
  }

  lemma {:induction false} WholeHalfTicks(x: real, n: int)
    requires x * 20_000.0 == n as real
    ensures OnHalfTick(x)
  {
  }
}
