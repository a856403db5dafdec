/** Capital weights per strategy (risk/weighting.py): the cap phase, the floor phase and the final scaling. */
module Weighting {
  import opened Numbers
  import opened Collections

  const EPS := 0.000000000001
  const PASSES := 50

  // ---------------------------------------------------------------- masked sums

  function SumIf(values: seq<real>, keep: seq<bool>): real
    requires |values| == |keep|
  {
    if values == [] then 0.0
    else
      var n := |values| - 1;
      SumIf(values[..n], keep[..n]) + if keep[n] then values[n] else 0.0
  }

  function CountIf(keep: seq<bool>): (n: nat)
    ensures n <= |keep|
    ensures n == 0 <==> forall i :: 0 <= i < |keep| ==> !keep[i]
  {
    if keep == [] then 0
    else
      assert keep == keep[..|keep| - 1] + [keep[|keep| - 1]];
      CountIf(keep[..|keep| - 1]) + if keep[|keep| - 1] then 1 else 0
  }

  function Ones(n: nat): (r: seq<real>)
    ensures |r| == n && forall i :: 0 <= i < n ==> r[i] == 1.0
  {
    seq(n, i => 1.0)
  }

  function Over(values: seq<real>, total: real): (r: seq<real>)
    requires total != 0.0
    ensures |r| == |values|
  {
    seq(|values|, i requires 0 <= i < |values| => values[i] / total)
  }

  function By(values: seq<real>, factor: real): (r: seq<real>)
    ensures |r| == |values|
  {
    seq(|values|, i requires 0 <= i < |values| => factor * values[i])
  }

  lemma {:induction false} SumIfOver(values: seq<real>, keep: seq<bool>, total: real)
    requires |values| == |keep| && total != 0.0
    ensures SumIf(Over(values, total), keep) == SumIf(values, keep) / total
  {
    if values != [] {
      var n := |values| - 1;
      SumIfOver(values[..n], keep[..n], total);
      OverFront(values, total);
      OverStep(SumIf(values[..n], keep[..n]), values[n], total);
    }
  }

  lemma {:induction false} OverFront(values: seq<real>, total: real)
    requires values != [] && total != 0.0
    ensures Over(values, total)[..|values| - 1] == Over(values[..|values| - 1], total)
  {
    var n := |values| - 1;
    assert forall i :: 0 <= i < n ==> Over(values, total)[i] == Over(values[..n], total)[i];
  }

  lemma {:induction false} OverStep(x: real, y: real, total: real)
    requires total != 0.0
    ensures x / total + y / total == (x + y) / total
  {
  }

  lemma {:induction false} SumIfBy(values: seq<real>, keep: seq<bool>, factor: real)
    requires |values| == |keep|
    ensures SumIf(By(values, factor), keep) == factor * SumIf(values, keep)
  {
    if values != [] {
      var n := |values| - 1;
      SumIfBy(values[..n], keep[..n], factor);
      ByFront(values, factor);
      Distributes(factor, SumIf(values[..n], keep[..n]), values[n]);
    }
  }

  lemma {:induction false} ByFront(values: seq<real>, factor: real)
    requires values != []
    ensures By(values, factor)[..|values| - 1] == By(values[..|values| - 1], factor)
  {
    var n := |values| - 1;
    assert forall i :: 0 <= i < n ==> By(values, factor)[i] == By(values[..n], factor)[i];
  }

  lemma {:induction false} Distributes(factor: real, x: real, y: real)
    ensures factor * (x + y) == factor * x + factor * y
    ensures y * factor == factor * y
  {
  }

  lemma {:induction false} SumIfOnes(keep: seq<bool>)
    ensures SumIf(Ones(|keep|), keep) == CountIf(keep) as real
  {
    if keep != [] {
      var n := |keep| - 1;
      SumIfOnes(keep[..n]);
      assert Ones(|keep|)[..n] == Ones(n) && |keep[..n]| == n;
      assert keep == keep[..n] + [keep[n]];
    }
  }

  /** Taking `gap` from some entries and adding `gain` to others moves the sum by exactly those totals. */
  lemma {:induction false} SumMoves(
    w: seq<real>, r: seq<real>, down: seq<bool>, gap: seq<real>, up: seq<bool>, gain: seq<real>)
    requires |w| == |r| == |down| == |gap| == |up| == |gain|
    requires forall i :: 0 <= i < |w| ==>
      r[i] == w[i] - (if down[i] then gap[i] else 0.0) + (if up[i] then gain[i] else 0.0)
    ensures SumReal(r) == SumReal(w) - SumIf(gap, down) + SumIf(gain, up)
  {
    if w != [] {
      var n := |w| - 1;
      SumMoves(w[..n], r[..n], down[..n], gap[..n], up[..n], gain[..n]);
    }
  }

  /** Two disjoint masks that leave room cannot cover every index. */
  lemma {:induction false} CountDisjoint(a: seq<bool>, b: seq<bool>)
    requires |a| == |b| && forall i :: 0 <= i < |a| ==> !(a[i] && b[i])
    ensures CountIf(a) + CountIf(b) <= |a|
  {
    if a != [] {
      var n := |a| - 1;
      CountDisjoint(a[..n], b[..n]);
    }
  }

  lemma {:induction false} CountGrows(a: seq<bool>, b: seq<bool>)
    requires |a| == |b| && forall i :: 0 <= i < |a| ==> a[i] ==> b[i]
    ensures CountIf(a) <= CountIf(b)
    ensures (exists i :: 0 <= i < |a| && !a[i] && b[i]) ==> CountIf(a) < CountIf(b)
  {
    if a != [] {
      var n := |a| - 1;
      CountGrows(a[..n], b[..n]);
      if i :| 0 <= i < |a| && !a[i] && b[i] {
        if i < n {
          assert !a[..n][i] && b[..n][i];
        }
      }
    }
  }

  lemma {:induction false} SumIfNonNegative(values: seq<real>, keep: seq<bool>)
    requires |values| == |keep| && forall i :: 0 <= i < |values| && keep[i] ==> values[i] >= 0.0
    ensures SumIf(values, keep) >= 0.0
    ensures forall i :: 0 <= i < |values| && keep[i] ==> values[i] <= SumIf(values, keep)
  {
    if values != [] {
      var n := |values| - 1;
      SumIfNonNegative(values[..n], keep[..n]);
      forall i | 0 <= i < |values| && keep[i] ensures values[i] <= SumIf(values, keep) {
        if i < n {
          assert values[..n][i] == values[i] && keep[..n][i];
        }
      }
    }
  }

  ghost predicate NonNegative(s: seq<real>) {
    forall i :: 0 <= i < |s| ==> s[i] >= 0.0
  }

  function Not(mask: seq<bool>): (r: seq<bool>)
    ensures |r| == |mask| && forall i :: 0 <= i < |mask| ==> r[i] == !mask[i]
  {
    seq(|mask|, i requires 0 <= i < |mask| => !mask[i])
  }

  function Minus(w: seq<real>, x: real): (r: seq<real>)
    ensures |r| == |w| && forall i :: 0 <= i < |w| ==> r[i] == w[i] - x
  {
    seq(|w|, i requires 0 <= i < |w| => w[i] - x)
  }

  lemma {:induction false} NegatedSumIf(values: seq<real>, keep: seq<bool>)
    requires |values| == |keep| && forall i :: 0 <= i < |values| && keep[i] ==> values[i] <= 0.0
    ensures SumIf(values, keep) <= 0.0
  {
    if values != [] {
      NegatedSumIf(values[..|values| - 1], keep[..|values| - 1]);
    }
  }

  lemma {:induction false} NotFront(mask: seq<bool>)
    requires mask != []
    ensures Not(mask)[..|mask| - 1] == Not(mask[..|mask| - 1])
  {
  }

  lemma {:induction false} CountNot(mask: seq<bool>)
    ensures CountIf(Not(mask)) == |mask| - CountIf(mask)
  {
    hide Not;
    if mask != [] {
      CountNot(mask[..|mask| - 1]);
      NotFront(mask);
    }
  }

  lemma {:induction false} SumIfSplits(values: seq<real>, mask: seq<bool>)
    requires |values| == |mask|
    ensures SumReal(values) == SumIf(values, mask) + SumIf(values, Not(mask))
  {
    if values != [] {
      var n := |values| - 1;
      SumIfSplits(values[..n], mask[..n]);
      assert Not(mask)[..n] == Not(mask[..n]);
    }
  }

  lemma {:induction false} SumIfDifference(a: seq<real>, b: seq<real>, c: seq<real>, keep: seq<bool>)
    requires |a| == |b| == |c| == |keep| && forall i :: 0 <= i < |a| ==> c[i] == a[i] - b[i]
    ensures SumIf(c, keep) == SumIf(a, keep) - SumIf(b, keep)
  {
    if a != [] {
      var n := |a| - 1;
      SumIfDifference(a[..n], b[..n], c[..n], keep[..n]);
    }
  }

  lemma {:induction false} SumIfMinus(values: seq<real>, keep: seq<bool>, x: real)
    requires |values| == |keep|
    ensures SumIf(Minus(values, x), keep) == SumIf(values, keep) - x * CountIf(keep) as real
  {
    hide SumIf, CountIf;
    var same := By(Ones(|values|), x);
    SumIfDifference(values, same, Minus(values, x), keep);
    SumIfBy(Ones(|values|), keep, x);
    SumIfOnes(keep);
  }

  lemma {:induction false} SumIfAtMost(values: seq<real>, keep: seq<bool>, bound: real)
    requires |values| == |keep| && forall i :: 0 <= i < |values| && keep[i] ==> values[i] <= bound
    ensures SumIf(values, keep) <= bound * CountIf(keep) as real
  {
    hide SumIf, CountIf;
    NegatedSumIf(Minus(values, bound), keep);
    SumIfMinus(values, keep, bound);
  }

  lemma {:induction false} SomeMarked(mask: seq<bool>, i: nat)
    requires i < |mask| && mask[i]
    ensures CountIf(mask) > 0
  {
  }

  lemma {:induction false} SomeIndex(mask: seq<bool>) returns (i: nat)
    requires CountIf(mask) != 0
    ensures i < |mask| && mask[i]
  {
    i :| 0 <= i < |mask| && mask[i];
  }

  // ---------------------------------------------------------------- cap phase

  function OverCap(w: seq<real>, cap: real): (mask: seq<bool>)
    ensures |mask| == |w| && forall i :: 0 <= i < |w| ==> mask[i] == (w[i] > cap + EPS)
  {
    seq(|w|, i requires 0 <= i < |w| => w[i] > cap + EPS)
  }

  function Excess(w: seq<real>, cap: real): real {
    SumIf(Minus(w, cap), OverCap(w, cap))
  }

  /** How the excess is shared: in proportion to the free Sharpes, or equally if none of them is positive. */
  function Shares(sharpes: seq<real>, free: seq<bool>): (r: seq<real>)
    requires |sharpes| == |free| && CountIf(free) > 0
    ensures |r| == |sharpes|
  {
    if SumIf(sharpes, free) > 0.0 then Over(sharpes, SumIf(sharpes, free))
    else Over(Ones(|sharpes|), CountIf(free) as real)
  }

  function CapGain(w: seq<real>, sharpes: seq<real>, cap: real): (r: seq<real>)
    requires |w| == |sharpes| && CountIf(Not(OverCap(w, cap))) > 0
    ensures |r| == |w|
  {
    By(Shares(sharpes, Not(OverCap(w, cap))), Excess(w, cap))
  }

  function CapPass(w: seq<real>, sharpes: seq<real>, cap: real): (r: seq<real>)
    requires |w| == |sharpes| && CountIf(Not(OverCap(w, cap))) > 0
    ensures |r| == |w|
    ensures forall i :: 0 <= i < |w| ==> r[i] == if w[i] > cap + EPS then cap else w[i] + CapGain(w, sharpes, cap)[i]
  {
    var gain := CapGain(w, sharpes, cap);
    seq(|w|, i requires 0 <= i < |w| => if w[i] > cap + EPS then cap else w[i] + gain[i])
  }

  /** The excess one free strategy receives. */
  function ShareOf(excess: real, sharpe: real, freeSharpe: real, freeCount: nat): real
    requires freeCount > 0
  {
    if freeSharpe > 0.0 then excess * (sharpe / freeSharpe) else excess / freeCount as real
  }

  lemma {:induction false} ByOverAt(values: seq<real>, total: real, factor: real, i: nat)
    requires total != 0.0 && i < |values|
    ensures By(Over(values, total), factor)[i] == factor * (values[i] / total)
  {
  }

  lemma {:induction false} ShareAt(w: seq<real>, sharpes: seq<real>, cap: real, i: nat)
    requires |w| == |sharpes| && CountIf(Not(OverCap(w, cap))) > 0 && i < |w|
    ensures var free := Not(OverCap(w, cap));
            CapGain(w, sharpes, cap)[i] == ShareOf(Excess(w, cap), sharpes[i], SumIf(sharpes, free), CountIf(free))
  {
    hide By, Over, Excess, OverCap, Not;
    var free, excess := Not(OverCap(w, cap)), Excess(w, cap);
    if SumIf(sharpes, free) > 0.0 {
      ByOverAt(sharpes, SumIf(sharpes, free), excess, i);
    } else {
      ByOverAt(Ones(|sharpes|), CountIf(free) as real, excess, i);
      EqualPart(excess, CountIf(free) as real);
    }
  }

  lemma {:induction false} EqualPart(x: real, n: real)
    requires n > 0.0
    ensures x * (1.0 / n) == x / n
  {
  }

  predicate CapSettled(w: seq<real>, cap: real) {
    CountIf(OverCap(w, cap)) == 0
  }

  function CapLoop(w: seq<real>, sharpes: seq<real>, cap: real, passes: nat): (r: seq<real>)
    requires |w| == |sharpes|
    ensures |r| == |w|
    decreases passes
  {
    if passes == 0 || CapSettled(w, cap) || CountIf(Not(OverCap(w, cap))) == 0 then w
    else CapLoop(CapPass(w, sharpes, cap), sharpes, cap, passes - 1)
  }

  // ---------------------------------------------------------------- floor phase

  function UnderFloor(w: seq<real>, floor: real): (mask: seq<bool>)
    ensures |mask| == |w| && forall i :: 0 <= i < |w| ==> mask[i] == (w[i] < floor - EPS)
  {
    seq(|w|, i requires 0 <= i < |w| => w[i] < floor - EPS)
  }

  function AboveFloor(w: seq<real>, floor: real): (mask: seq<bool>)
    ensures |mask| == |w| && forall i :: 0 <= i < |w| ==> mask[i] == (w[i] > floor + EPS)
  {
    seq(|w|, i requires 0 <= i < |w| => w[i] > floor + EPS)
  }

  /** The strategies that are at the floor, up to the tolerance; no later pass touches them. */
  function Pinned(w: seq<real>, floor: real): (mask: seq<bool>)
    ensures |mask| == |w| && forall i :: 0 <= i < |w| ==> mask[i] == (floor - EPS <= w[i] <= floor + EPS)
  {
    seq(|w|, i requires 0 <= i < |w| => floor - EPS <= w[i] <= floor + EPS)
  }

  function Deficit(w: seq<real>, floor: real): real {
    -SumIf(Minus(w, floor), UnderFloor(w, floor))
  }

  function AboveTotal(w: seq<real>, floor: real): real {
    SumIf(w, AboveFloor(w, floor))
  }

  /** What each above-floor strategy gives up: its proportional part of the deficit. */
  function FloorLoss(w: seq<real>, floor: real): (r: seq<real>)
    requires AboveTotal(w, floor) != 0.0
    ensures |r| == |w|
  {
    By(Over(w, AboveTotal(w, floor)), Deficit(w, floor))
  }

  function FloorPass(w: seq<real>, floor: real): (r: seq<real>)
    requires AboveTotal(w, floor) != 0.0
    ensures |r| == |w|
    ensures forall i :: 0 <= i < |w| ==>
      r[i] == if w[i] < floor - EPS then floor
              else if w[i] > floor + EPS then w[i] - FloorLoss(w, floor)[i]
              else w[i]
  {
    var loss := FloorLoss(w, floor);
    seq(|w|, i requires 0 <= i < |w| =>
      if w[i] < floor - EPS then floor
      else if w[i] > floor + EPS then w[i] - loss[i]
      else w[i])
  }

  predicate FloorSettled(w: seq<real>, floor: real) {
    CountIf(UnderFloor(w, floor)) == 0
  }

  /** The above-floor strategies of a non-negative floor have a positive total. */
  lemma {:induction false} AboveTotalPositive(w: seq<real>, floor: real)
    requires floor >= 0.0 && CountIf(AboveFloor(w, floor)) > 0
    ensures AboveTotal(w, floor) > 0.0
  {
    SumIfNonNegative(w, AboveFloor(w, floor));
  }

  function FloorLoop(w: seq<real>, floor: real, passes: nat): (r: seq<real>)
    requires floor >= 0.0
    ensures |r| == |w|
    decreases passes
  {
    if passes == 0 || FloorSettled(w, floor) || CountIf(AboveFloor(w, floor)) == 0 then w
    else
      AboveTotalPositive(w, floor);
      FloorLoop(FloorPass(w, floor), floor, passes - 1)
  }

  // ---------------------------------------------------------------- conservation

  lemma {:induction false} SharesSumToOne(sharpes: seq<real>, free: seq<bool>)
    requires |sharpes| == |free| && CountIf(free) > 0
    ensures SumIf(Shares(sharpes, free), free) == 1.0
  {
    hide Over, SumIf, CountIf;
    if SumIf(sharpes, free) > 0.0 {
      SumIfOver(sharpes, free, SumIf(sharpes, free));
      SelfQuotient(SumIf(sharpes, free));
    } else {
      SumIfOver(Ones(|sharpes|), free, CountIf(free) as real);
      SumIfOnes(free);
      SelfQuotient(CountIf(free) as real);
    }
  }

  lemma {:induction false} SelfQuotient(x: real)
    requires x != 0.0
    ensures x / x == 1.0
  {
  }

  lemma {:induction false} CapGainTotal(w: seq<real>, sharpes: seq<real>, cap: real)
    requires |w| == |sharpes| && CountIf(Not(OverCap(w, cap))) > 0
    ensures SumIf(CapGain(w, sharpes, cap), Not(OverCap(w, cap))) == Excess(w, cap)
  {
    hide Shares, By, OverCap, Not, Excess;
    var free := Not(OverCap(w, cap));
    SharesSumToOne(sharpes, free);
    SumIfBy(Shares(sharpes, free), free, Excess(w, cap));
  }

  /** A cap pass moves the excess and loses nothing. */
  lemma {:induction false} CapPassConserves(w: seq<real>, sharpes: seq<real>, cap: real)
    requires |w| == |sharpes| && CountIf(Not(OverCap(w, cap))) > 0
    ensures SumReal(CapPass(w, sharpes, cap)) == SumReal(w)
  {
    hide SumReal, OverCap, Not, Minus, CapGain, CapPass;
    var over, gap := OverCap(w, cap), Minus(w, cap);
    var r, free, gain := CapPass(w, sharpes, cap), Not(over), CapGain(w, sharpes, cap);
    assert Excess(w, cap) == SumIf(gap, over);
    CapGainTotal(w, sharpes, cap);
    hide Excess;
    SumMoves(w, r, over, gap, free, gain);
    assert SumReal(r) == SumReal(w) - SumIf(gap, over) + SumIf(gain, free);
  }

  lemma {:induction false} SharesNonNegative(sharpes: seq<real>, free: seq<bool>)
    requires |sharpes| == |free| && CountIf(free) > 0 && NonNegative(sharpes)
    ensures NonNegative(Shares(sharpes, free))
  {
    var total := SumIf(sharpes, free);
    if total > 0.0 {
      forall i | 0 <= i < |sharpes| ensures sharpes[i] / total >= 0.0 {
        DivideMonotone(0.0, sharpes[i], total);
      }
    } else {
      DivideMonotone(0.0, 1.0, CountIf(free) as real);
    }
  }

  lemma {:induction false} GainNonNegative(w: seq<real>, sharpes: seq<real>, cap: real)
    requires |w| == |sharpes| && CountIf(Not(OverCap(w, cap))) > 0 && NonNegative(sharpes)
    ensures forall i :: 0 <= i < |w| ==> CapGain(w, sharpes, cap)[i] >= 0.0
  {
    hide Shares;
    var shares, excess := Shares(sharpes, Not(OverCap(w, cap))), Excess(w, cap);
    SumIfNonNegative(Minus(w, cap), OverCap(w, cap));
    SharesNonNegative(sharpes, Not(OverCap(w, cap)));
    forall i | 0 <= i < |w| ensures CapGain(w, sharpes, cap)[i] >= 0.0 {
      ProductSign(excess, shares[i]);
    }
  }

  lemma {:induction false} CapPassNonNegative(w: seq<real>, sharpes: seq<real>, cap: real)
    requires |w| == |sharpes| && CountIf(Not(OverCap(w, cap))) > 0
    requires NonNegative(w) && NonNegative(sharpes) && cap >= 0.0
    ensures NonNegative(CapPass(w, sharpes, cap))
  {
    hide CapGain, OverCap, Not;
    GainNonNegative(w, sharpes, cap);
  }

  /** The cap phase keeps the weights non-negative and their sum unchanged, settled or not. */
  lemma {:induction false} CapLoopConserves(w: seq<real>, sharpes: seq<real>, cap: real, passes: nat)
    requires |w| == |sharpes| && NonNegative(w) && NonNegative(sharpes) && cap >= 0.0
    ensures SumReal(CapLoop(w, sharpes, cap, passes)) == SumReal(w)
    ensures NonNegative(CapLoop(w, sharpes, cap, passes))
    decreases passes
  {
    hide CountIf, SumIf, SumReal, CapPass, OverCap;
    if !(passes == 0 || CapSettled(w, cap) || CountIf(Not(OverCap(w, cap))) == 0) {
      CapPassConserves(w, sharpes, cap);
      CapPassNonNegative(w, sharpes, cap);
      CapLoopConserves(CapPass(w, sharpes, cap), sharpes, cap, passes - 1);
    }
  }

  lemma {:induction false} FloorPassConserves(w: seq<real>, floor: real)
    requires AboveTotal(w, floor) > 0.0
    ensures SumReal(FloorPass(w, floor)) == SumReal(w)
  {
    hide By, Over, SumReal, SumIf, UnderFloor, AboveFloor;
    var under, above := UnderFloor(w, floor), AboveFloor(w, floor);
    var total, deficit := AboveTotal(w, floor), Deficit(w, floor);
    var part, loss := Over(w, total), FloorLoss(w, floor);
    SumIfOver(w, above, total);
    SumIfBy(part, above, deficit);
    SumIfBy(loss, above, -1.0);
    Negated(loss);
    SumMoves(w, FloorPass(w, floor), under, Minus(w, floor), above, By(loss, -1.0));
  }

  lemma {:induction false} Negated(values: seq<real>)
    ensures forall i :: 0 <= i < |values| ==> By(values, -1.0)[i] == -values[i]
  {
  }

  /** The deficit one above-floor strategy pays. */
  function PaymentOf(deficit: real, weight: real, aboveTotal: real): real
    requires aboveTotal != 0.0
  {
    deficit * (weight / aboveTotal)
  }

  lemma {:induction false} PaymentAt(w: seq<real>, floor: real, i: nat)
    requires AboveTotal(w, floor) != 0.0 && i < |w|
    ensures FloorLoss(w, floor)[i] == PaymentOf(Deficit(w, floor), w[i], AboveTotal(w, floor))
  {
    hide By, Over, Deficit, AboveTotal;
    ByOverAt(w, AboveTotal(w, floor), Deficit(w, floor), i);
  }

  // ---------------------------------------------------------------- the floor is reached

  /** Floors for every strategy fit into a budget of one. */
  predicate Feasible(n: nat, floor: real) {
    n as real * (floor + EPS) <= 1.0
  }

  /** Raising everyone below the floor costs no more than the strategies above it hold. */
  lemma {:induction false} LowPrefix(w: seq<real>, floor: real, k: nat)
    requires k <= |w| && forall i :: 0 <= i < k ==> w[i] <= floor + EPS
    ensures SumReal(w[..k]) <= k as real * (floor + EPS)
    ensures (exists i :: 0 <= i < k && w[i] < floor - EPS) ==> SumReal(w[..k]) < k as real * (floor + EPS)
  {
    if k > 0 {
      var j := k - 1;
      LowPrefix(w, floor, j);
      assert w[..k][..j] == w[..j];
      assert k as real * (floor + EPS) == j as real * (floor + EPS) + (floor + EPS);
    }
  }

  lemma {:induction false} DeficitPrefix(w: seq<real>, floor: real, k: nat)
    requires floor >= 0.0 && k <= |w|
    ensures -SumIf(Minus(w, floor)[..k], UnderFloor(w, floor)[..k]) + SumReal(w[..k])
         <= k as real * (floor + EPS) + SumIf(w[..k], AboveFloor(w, floor)[..k])
  {
    var gap, under, above := Minus(w, floor), UnderFloor(w, floor), AboveFloor(w, floor);
    if k > 0 {
      var j := k - 1;
      DeficitPrefix(w, floor, j);
      assert w[..k][..j] == w[..j] && gap[..k][..j] == gap[..j];
      assert under[..k][..j] == under[..j] && above[..k][..j] == above[..j];
      assert k as real * (floor + EPS) == j as real * (floor + EPS) + (floor + EPS);
    }
  }

  lemma {:induction false} DeficitCovered(w: seq<real>, floor: real)
    requires floor >= 0.0 && SumReal(w) == 1.0 && Feasible(|w|, floor)
    ensures Deficit(w, floor) <= AboveTotal(w, floor)
    ensures !FloorSettled(w, floor) ==> CountIf(AboveFloor(w, floor)) > 0
  {
    hide SumIf, SumReal, CountIf, FloorSettled;
    var n := |w|;
    DeficitPrefix(w, floor, n);
    assert w[..n] == w && Minus(w, floor)[..n] == Minus(w, floor);
    assert UnderFloor(w, floor)[..n] == UnderFloor(w, floor) && AboveFloor(w, floor)[..n] == AboveFloor(w, floor);
    SomethingAbove(w, floor);
  }

  lemma {:induction false} SomethingAbove(w: seq<real>, floor: real)
    requires SumReal(w) == 1.0 && Feasible(|w|, floor)
    ensures !FloorSettled(w, floor) ==> CountIf(AboveFloor(w, floor)) > 0
  {
    hide SumReal, CountIf;
    assert w[..|w|] == w;
    if forall i :: 0 <= i < |w| ==> w[i] <= floor + EPS {
      LowPrefix(w, floor, |w|);
    }
  }

  lemma {:induction false} LossBounds(w: seq<real>, floor: real, i: nat)
    requires floor >= 0.0 && AboveTotal(w, floor) > 0.0 && i < |w| && w[i] >= 0.0
    ensures 0.0 <= Deficit(w, floor) <= AboveTotal(w, floor) ==> FloorLoss(w, floor)[i] <= w[i]
    ensures Deficit(w, floor) >= 0.0 ==> FloorLoss(w, floor)[i] >= 0.0
  {
    hide SumIf, AboveTotal, Deficit;
    Portion(w[i], Deficit(w, floor), AboveTotal(w, floor));
  }

  lemma {:induction false} Portion(x: real, deficit: real, total: real)
    requires x >= 0.0 && total > 0.0
    ensures deficit <= total ==> deficit * (x / total) <= x
    ensures deficit >= 0.0 ==> deficit * (x / total) >= 0.0
  {
    var q := x / total;
    assert q * total == x;
    DivideMonotone(0.0, x, total);
    ProductSign(q, deficit);
    if deficit <= total {
      TimesMonotone(deficit, total, q);
    }
  }

  lemma {:induction false} FloorPassNonNegative(w: seq<real>, floor: real)
    requires floor >= 0.0 && NonNegative(w) && AboveTotal(w, floor) > 0.0
    requires Deficit(w, floor) <= AboveTotal(w, floor)
    ensures NonNegative(FloorPass(w, floor))
  {
    hide FloorLoss, AboveTotal, Deficit;
    DeficitNonNegative(w, floor);
    forall i | 0 <= i < |w| ensures FloorPass(w, floor)[i] >= 0.0 {
      LossBounds(w, floor, i);
    }
  }

  /** Each unsettled pass pins at least one more strategy at the floor, and none comes loose. */
  lemma {:induction false} FloorPassPins(w: seq<real>, floor: real)
    requires floor >= 0.0 && AboveTotal(w, floor) > 0.0 && !FloorSettled(w, floor)
    ensures forall i :: 0 <= i < |w| && Pinned(w, floor)[i] ==> FloorPass(w, floor)[i] == w[i]
    ensures CountIf(Pinned(w, floor)) < CountIf(Pinned(FloorPass(w, floor), floor))
  {
    var i :| 0 <= i < |w| && UnderFloor(w, floor)[i];
    var a, b := Pinned(w, floor), Pinned(FloorPass(w, floor), floor);
    assert !a[i] && b[i];
    CountGrows(a, b);
  }

  /** One strategy above and one below the floor leave at most n - 2 pinned. */
  lemma {:induction false} OneLeft(w: seq<real>, floor: real)
    requires CountIf(AboveFloor(w, floor)) > 0 && !FloorSettled(w, floor)
    ensures CountIf(Pinned(w, floor)) + 2 <= |w|
  {
    var under, above, pinned := UnderFloor(w, floor), AboveFloor(w, floor), Pinned(w, floor);
    var i :| 0 <= i < |w| && under[i];
    var wider := pinned[i := true];
    CountGrows(pinned, wider);
    CountDisjoint(wider, above);
  }

  /** Below the pass limit's reach too, floor passes never break conservation. */
  lemma {:induction false} FloorLoopConserves(w: seq<real>, floor: real, passes: nat)
    requires floor >= 0.0
    ensures SumReal(FloorLoop(w, floor, passes)) == SumReal(w)
    decreases passes
  {
    hide CountIf, SumIf, SumReal, FloorPass, AboveFloor, UnderFloor, AboveTotal;
    if !(passes == 0 || FloorSettled(w, floor) || CountIf(AboveFloor(w, floor)) == 0) {
      AboveTotalPositive(w, floor);
      FloorPassConserves(w, floor);
      FloorLoopConserves(FloorPass(w, floor), floor, passes - 1);
    }
  }

  lemma {:induction false} FloorPassKeepsCap(w: seq<real>, floor: real, cap: real)
    requires 0.0 <= floor <= cap && AboveTotal(w, floor) > 0.0
    requires forall i :: 0 <= i < |w| ==> w[i] <= cap + EPS
    ensures forall i :: 0 <= i < |w| ==> FloorPass(w, floor)[i] <= cap + EPS
  {
    hide FloorLoss, AboveTotal, Deficit, FloorPass;
    DeficitNonNegative(w, floor);
    forall i | 0 <= i < |w| ensures FloorPass(w, floor)[i] <= cap + EPS {
      if w[i] > floor + EPS {
        LossBounds(w, floor, i);
      }
    }
  }

  /** Once nothing is over the cap, raising floors cannot push anything over it. */
  lemma {:induction false} FloorLoopKeepsCap(w: seq<real>, floor: real, cap: real, passes: nat)
    requires 0.0 <= floor <= cap && forall i :: 0 <= i < |w| ==> w[i] <= cap + EPS
    ensures forall i :: 0 <= i < |w| ==> FloorLoop(w, floor, passes)[i] <= cap + EPS
    decreases passes
  {
    hide FloorPass, AboveFloor, AboveTotal, CountIf, FloorSettled;
    if !(passes == 0 || FloorSettled(w, floor) || CountIf(AboveFloor(w, floor)) == 0) {
      AboveTotalPositive(w, floor);
      FloorPassKeepsCap(w, floor, cap);
      FloorLoopKeepsCap(FloorPass(w, floor), floor, cap, passes - 1);
    }
  }

  lemma {:induction false} DeficitNonNegative(w: seq<real>, floor: real)
    ensures Deficit(w, floor) >= 0.0
  {
    NegatedSumIf(Minus(w, floor), UnderFloor(w, floor));
  }

  // ---------------------------------------------------------------- how fast the floor is reached

  /** Two disjoint masks within a third count no more than it does. */
  lemma {:induction false} CountWithin(a: seq<bool>, b: seq<bool>, c: seq<bool>)
    requires |a| == |b| == |c|
    requires forall i :: 0 <= i < |a| ==> !(a[i] && b[i]) && (a[i] || b[i] ==> c[i])
    ensures CountIf(a) + CountIf(b) <= CountIf(c)
  {
    if a != [] {
      var n := |a| - 1;
      CountWithin(a[..n], b[..n], c[..n]);
    }
  }

  lemma {:induction false} SumIfAtLeast(values: seq<real>, keep: seq<bool>, bound: real)
    requires |values| == |keep| && forall i :: 0 <= i < |values| && keep[i] ==> values[i] >= bound
    ensures SumIf(values, keep) >= bound * CountIf(keep) as real
  {
    hide SumIf, CountIf;
    SumIfNonNegative(Minus(values, bound), keep);
    SumIfMinus(values, keep, bound);
  }

  /** The deficit times the number of strategies that pay for it: every pass quarters it. */
  function Potential(w: seq<real>, floor: real): real {
    Deficit(w, floor) * CountIf(AboveFloor(w, floor)) as real
  }

  /** The gap a paying strategy is left with is at most an equal part of the deficit it helped to pay. */
  lemma {:induction false} GapBound(x: real, floor: real, deficit: real, total: real, m: real)
    requires floor >= 0.0 && x >= floor + EPS && m > 0.0
    requires 0.0 <= deficit <= total && total > 0.0 && total >= (floor + EPS) * m
    ensures floor - (x - deficit * (x / total)) <= deficit / m
  {
    var t := deficit / total;
    assert t * total == deficit;
    DivideMonotone(0.0, deficit, total);
    DivideMonotone(deficit, total, total);
    SelfQuotient(total);
    assert deficit * (x / total) == x * t;
    TimesMonotone(floor + EPS, x, 1.0 - t);
    assert x * (1.0 - t) == x - x * t;
    var paid := (floor + EPS) * t;
    assert (floor + EPS) * (1.0 - t) == floor + EPS - paid;
    TimesMonotone((floor + EPS) * m, total, t);
    assert (floor + EPS) * m * t == paid * m;
    DivideMonotone(paid * m, deficit, m);
    assert paid * m / m == paid;
  }

  lemma {:induction false} PayersHoldEnough(w: seq<real>, floor: real)
    ensures AboveTotal(w, floor) >= (floor + EPS) * CountIf(AboveFloor(w, floor)) as real
  {
    hide SumIf, CountIf;
    SumIfAtLeast(w, AboveFloor(w, floor), floor + EPS);
  }

  lemma {:induction false} GapAt(w: seq<real>, floor: real, i: nat)
    requires floor >= 0.0 && AboveTotal(w, floor) > 0.0 && Deficit(w, floor) <= AboveTotal(w, floor)
    requires CountIf(AboveFloor(w, floor)) > 0
    requires i < |w| && UnderFloor(FloorPass(w, floor), floor)[i]
    ensures floor - FloorPass(w, floor)[i] <= Deficit(w, floor) / CountIf(AboveFloor(w, floor)) as real
  {
    hide SumIf, CountIf, AboveTotal, Deficit, FloorLoss, FloorPass, AboveFloor, UnderFloor;
    DeficitNonNegative(w, floor);
    PayersHoldEnough(w, floor);
    PaymentAt(w, floor, i);
    GapBound(w[i], floor, Deficit(w, floor), AboveTotal(w, floor), CountIf(AboveFloor(w, floor)) as real);
  }

  /** After a pass only strategies that paid are away from the floor, and each is short by little. */
  lemma {:induction false} NewDeficit(w: seq<real>, floor: real)
    requires floor >= 0.0 && AboveTotal(w, floor) > 0.0 && Deficit(w, floor) <= AboveTotal(w, floor)
    requires CountIf(AboveFloor(w, floor)) > 0
    ensures var r, m := FloorPass(w, floor), CountIf(AboveFloor(w, floor));
            CountIf(UnderFloor(r, floor)) + CountIf(AboveFloor(r, floor)) <= m &&
            Deficit(r, floor) <= Deficit(w, floor) / m as real * CountIf(UnderFloor(r, floor)) as real
  {
    hide SumIf, CountIf, AboveTotal, Deficit, FloorLoss, FloorPass;
    var r, m := FloorPass(w, floor), CountIf(AboveFloor(w, floor)) as real;
    forall i | 0 <= i < |w| && UnderFloor(r, floor)[i]
      ensures Minus(r, floor)[i] >= -(Deficit(w, floor) / m)
    {
      GapAt(w, floor, i);
    }
    CountWithin(UnderFloor(r, floor), AboveFloor(r, floor), AboveFloor(w, floor));
    DeficitAtMost(r, floor, Deficit(w, floor) / m);
  }

  lemma {:induction false} DeficitAtMost(w: seq<real>, floor: real, gap: real)
    requires forall i :: 0 <= i < |w| && UnderFloor(w, floor)[i] ==> Minus(w, floor)[i] >= -gap
    ensures Deficit(w, floor) <= gap * CountIf(UnderFloor(w, floor)) as real
  {
    hide SumIf, CountIf;
    SumIfAtLeast(Minus(w, floor), UnderFloor(w, floor), -gap);
  }

  lemma {:induction false} SquareMonotone(x: real, y: real)
    requires 0.0 <= x <= y
    ensures x * x <= y * y
  {
    TimesMonotone(x, y, x);
    TimesMonotone(x, y, y);
  }

  lemma {:induction false} FourProducts(x: real, y: real)
    ensures 4.0 * (x * y) <= (x + y) * (x + y)
  {
    var d := x - y;
    assert d * d >= 0.0;
    assert (x + y) * (x + y) == d * d + 4.0 * (x * y);
  }

  /** Four times the product of two counts is at most the square of their sum. */
  lemma {:induction false} Quartered(part: real, k: nat, a: nat, m: nat)
    requires part >= 0.0 && k + a <= m
    ensures 4.0 * (part * k as real * a as real) <= part * m as real * m as real
  {
    var x, y, z := k as real, a as real, m as real;
    FourProducts(x, y);
    SquareMonotone(x + y, z);
    TimesMonotone(4.0 * (x * y), z * z, part);
    assert 4.0 * (x * y) * part == 4.0 * (part * x * y) && z * z * part == part * z * z;
  }

  lemma {:induction false} PotentialArithmetic(before: real, after: real, k: nat, a: nat, m: nat)
    requires before >= 0.0 && m > 0 && k + a <= m && after <= before / m as real * k as real
    ensures 4.0 * (after * a as real) <= before * m as real
  {
    var part := before / m as real;
    DivideMonotone(0.0, before, m as real);
    TimesMonotone(after, part * k as real, a as real);
    Quartered(part, k, a, m);
    assert part * m as real == before;
  }

  lemma {:induction false} PotentialQuarters(w: seq<real>, floor: real)
    requires floor >= 0.0 && AboveTotal(w, floor) > 0.0 && Deficit(w, floor) <= AboveTotal(w, floor)
    requires CountIf(AboveFloor(w, floor)) > 0
    ensures 4.0 * Potential(FloorPass(w, floor), floor) <= Potential(w, floor)
  {
    hide CountIf, AboveTotal, Deficit, FloorPass, UnderFloor, AboveFloor;
    var r, m := FloorPass(w, floor), CountIf(AboveFloor(w, floor));
    NewDeficit(w, floor);
    DeficitNonNegative(w, floor);
    PotentialArithmetic(
      Deficit(w, floor), Deficit(r, floor), CountIf(UnderFloor(r, floor)), CountIf(AboveFloor(r, floor)), m);
  }

  lemma {:induction false} UnsettledDeficit(w: seq<real>, floor: real)
    requires !FloorSettled(w, floor)
    ensures Deficit(w, floor) > EPS
  {
    hide SumIf, CountIf, By;
    var i := SomeIndex(UnderFloor(w, floor));
    var gaps := By(Minus(w, floor), -1.0);
    SumIfBy(Minus(w, floor), UnderFloor(w, floor), -1.0);
    Negated(Minus(w, floor));
    SumIfNonNegative(gaps, UnderFloor(w, floor));
    assert gaps[i] > EPS;
  }

  /** As long as the phase is not settled, someone is short by more than the tolerance and someone can pay. */
  lemma {:induction false} UnsettledPotential(w: seq<real>, floor: real)
    requires !FloorSettled(w, floor) && CountIf(AboveFloor(w, floor)) > 0
    ensures Potential(w, floor) > EPS
  {
    hide SumIf, CountIf, AboveFloor, Deficit, FloorSettled;
    UnsettledDeficit(w, floor);
    TimesMonotone(1.0, CountIf(AboveFloor(w, floor)) as real, Deficit(w, floor));
  }

  lemma {:induction false} PowerFourSum(a: nat, b: nat)
    ensures Power(4.0, a + b) == Power(4.0, a) * Power(4.0, b)
  {
    if a > 0 {
      PowerFourSum(a - 1, b);
      assert Power(4.0, a + b) == 4.0 * Power(4.0, a - 1 + b);
    }
  }

  lemma {:induction false} ProductsCompare(x: real, u: real, y: real, v: real)
    requires 0.0 <= x <= u && 0.0 <= y <= v
    ensures x * y <= u * v
  {
    TimesMonotone(x, u, y);
    TimesMonotone(y, v, u);
    assert y * u == u * y && v * u == u * v;
  }

  lemma {:induction false} PowerFourAtLeast(a: nat, b: nat, x: real, y: real)
    requires 0.0 <= x <= Power(4.0, a) && 0.0 <= y <= Power(4.0, b)
    ensures Power(4.0, a + b) >= x * y
  {
    hide Power;
    PowerFourSum(a, b);
    ProductsCompare(x, Power(4.0, a), y, Power(4.0, b));
  }

  lemma {:induction false} ManyPasses()
    ensures Power(4.0, PASSES) >= 1_000_000_000_000_000_000_000_000.0
  {
    PowerFourFive();
    PowerFourAtLeast(5, 5, 1_000.0, 1_000.0);
    PowerFourAtLeast(10, 10, 1_000_000.0, 1_000_000.0);
    PowerFourAtLeast(20, 20, 1_000_000_000_000.0, 1_000_000_000_000.0);
    PowerFourAtLeast(40, 10, 1_000_000_000_000_000_000_000_000.0, 1.0);
  }

  lemma {:induction false} PowerFourFive()
    ensures Power(4.0, 5) >= 1_000.0
  {
    assert Power(4.0, 2) == 16.0;
    assert Power(4.0, 4) == 256.0;
  }

  /** A feasible floor is above the tolerance only for up to a million million strategies. */
  lemma {:induction false} FeasibleCount(n: nat, floor: real)
    requires floor >= 0.0 && Feasible(n, floor)
    ensures n as real <= 1_000_000_000_000.0
  {
    TimesMonotone(EPS, floor + EPS, n as real);
  }

  lemma {:induction false} AtMostCount(x: real, count: nat, n: nat)
    requires x <= 1.0 && count <= n
    ensures x * count as real <= n as real
  {
    TimesMonotone(x, 1.0, count as real);
  }

  lemma {:induction false} PotentialAtMostCount(w: seq<real>, floor: real)
    requires floor >= 0.0 && NonNegative(w) && SumReal(w) == 1.0 && Feasible(|w|, floor)
    ensures Potential(w, floor) <= |w| as real
  {
    hide SumIf, SumReal, CountIf, Deficit, AboveTotal, NonNegative, Feasible;
    DeficitCovered(w, floor);
    AboveAtMostAll(w, floor);
    AtMostCount(Deficit(w, floor), CountIf(AboveFloor(w, floor)), |w|);
  }

  lemma {:induction false} EnoughPasses()
    ensures EPS * Power(4.0, PASSES) >= 1_000_000_000_000.0
  {
    hide Power;
    ManyPasses();
    TimesMonotone(1_000_000_000_000_000_000_000_000.0, Power(4.0, PASSES), EPS);
  }

  lemma {:induction false} PotentialAtStart(w: seq<real>, floor: real)
    requires floor >= 0.0 && NonNegative(w) && SumReal(w) == 1.0 && Feasible(|w|, floor)
    ensures Potential(w, floor) <= EPS * Power(4.0, PASSES)
  {
    hide SumReal, Potential, NonNegative, Feasible, Power;
    PotentialAtMostCount(w, floor);
    FeasibleCount(|w|, floor);
    EnoughPasses();
  }

  lemma {:induction false} AboveAtMostAll(w: seq<real>, floor: real)
    requires NonNegative(w)
    ensures AboveTotal(w, floor) <= SumReal(w)
  {
    hide SumIf, SumReal;
    SumIfSplits(w, AboveFloor(w, floor));
    SumIfNonNegative(w, Not(AboveFloor(w, floor)));
  }

  /** With a pass left for every strategy not yet pinned, or enough for the potential, the floor phase settles. */
  lemma {:induction false} FloorLoopSettles(w: seq<real>, floor: real, passes: nat)
    requires floor >= 0.0 && NonNegative(w) && SumReal(w) == 1.0 && Feasible(|w|, floor)
    requires passes + CountIf(Pinned(w, floor)) + 1 >= |w| || Potential(w, floor) <= EPS * Power(4.0, passes)
    ensures var r := FloorLoop(w, floor, passes);
            FloorSettled(r, floor) && NonNegative(r) && SumReal(r) == 1.0
    decreases passes
  {
    hide CountIf, SumIf, SumReal, FloorPass, AboveFloor, UnderFloor, Pinned, AboveTotal, Deficit, Feasible, Potential,
      FloorSettled, NonNegative;
    DeficitCovered(w, floor);
    if !FloorSettled(w, floor) {
      AboveTotalPositive(w, floor);
      OneLeft(w, floor);
      UnsettledPotential(w, floor);
      assert passes > 0;
      FloorPassConserves(w, floor);
      FloorPassNonNegative(w, floor);
      FloorPassPins(w, floor);
      PotentialQuarters(w, floor);
      FloorLoopSettles(FloorPass(w, floor), floor, passes - 1);
    }
  }

  // ---------------------------------------------------------------- the whole computation

  lemma {:induction false} SumRealIsSumIf(values: seq<real>, keep: seq<bool>)
    requires |values| == |keep| && forall i :: 0 <= i < |keep| ==> keep[i]
    ensures SumIf(values, keep) == SumReal(values)
  {
    if values != [] {
      SumRealIsSumIf(values[..|values| - 1], keep[..|values| - 1]);
    }
  }

  function All(n: nat): (keep: seq<bool>)
    ensures |keep| == n && forall i :: 0 <= i < n ==> keep[i]
  {
    seq(n, i => true)
  }

  lemma {:induction false} CountAll(n: nat)
    ensures CountIf(All(n)) == n
  {
    if n > 0 {
      CountAll(n - 1);
      assert All(n)[..n - 1] == All(n - 1);
    }
  }

  lemma {:induction false} SumOver(values: seq<real>, total: real)
    requires total != 0.0
    ensures SumReal(Over(values, total)) == SumReal(values) / total
  {
    var keep := All(|values|);
    SumIfOver(values, keep, total);
    SumRealIsSumIf(values, keep);
    SumRealIsSumIf(Over(values, total), keep);
  }

  lemma {:induction false} SumOnes(n: nat)
    ensures SumReal(Ones(n)) == n as real
  {
    SumIfOnes(All(n));
    SumRealIsSumIf(Ones(n), All(n));
    CountAll(n);
  }

  lemma {:induction false} TotalNonNegative(values: seq<real>)
    requires NonNegative(values)
    ensures SumReal(values) >= 0.0
  {
    SumRealIsSumIf(values, All(|values|));
    SumIfNonNegative(values, All(|values|));
  }

  /** The Sharpe-proportional start. */
  lemma {:induction false} StartWeights(sharpes: seq<real>)
    requires NonNegative(sharpes) && SumReal(sharpes) != 0.0
    ensures SumReal(Over(sharpes, SumReal(sharpes))) == 1.0
    ensures NonNegative(Over(sharpes, SumReal(sharpes)))
  {
    var total := SumReal(sharpes);
    TotalNonNegative(sharpes);
    SumOver(sharpes, total);
    SelfQuotient(total);
    forall i | 0 <= i < |sharpes| ensures sharpes[i] / total >= 0.0 {
      DivideMonotone(0.0, sharpes[i], total);
    }
  }

  /** The weights after the cap phase. */
  function Capped(sharpes: seq<real>, cap: real): (w: seq<real>)
    requires SumReal(sharpes) != 0.0
    ensures |w| == |sharpes|
  {
    CapLoop(Over(sharpes, SumReal(sharpes)), sharpes, cap, PASSES)
  }

  lemma {:induction false} CappedTotal(sharpes: seq<real>, cap: real)
    requires NonNegative(sharpes) && SumReal(sharpes) != 0.0 && cap >= 0.0
    ensures SumReal(Capped(sharpes, cap)) == 1.0 && NonNegative(Capped(sharpes, cap))
  {
    StartWeights(sharpes);
    CapLoopConserves(Over(sharpes, SumReal(sharpes)), sharpes, cap, PASSES);
  }

  /** The weights after both phases; they still add up to one, so the closing normalisation divides by one. */
  function Floored(sharpes: seq<real>, floor: real, cap: real): (w: seq<real>)
    requires NonNegative(sharpes) && SumReal(sharpes) != 0.0 && floor >= 0.0 && cap >= 0.0
    ensures |w| == |sharpes| && SumReal(w) == 1.0
  {
    CappedTotal(sharpes, cap);
    FloorLoopConserves(Capped(sharpes, cap), floor, PASSES);
    FloorLoop(Capped(sharpes, cap), floor, PASSES)
  }

  function Weights(sharpes: seq<real>, floor: real, cap: real): (w: seq<real>)
    requires NonNegative(sharpes) && floor >= 0.0 && cap >= 0.0
    ensures |w| == |sharpes|
  {
    if |sharpes| == 0 then []
    else if SumReal(sharpes) == 0.0 then Over(Ones(|sharpes|), |sharpes| as real)
    else if |sharpes| == 1 then Over(sharpes, SumReal(sharpes))
    else
      var w := Floored(sharpes, floor, cap);
      Over(w, SumReal(w))
  }

  lemma {:induction false} OverOne(w: seq<real>)
    ensures Over(w, 1.0) == w
  {
  }

  /** Whatever the limits, the weights of at least one strategy add up to exactly one. */
  lemma {:induction false} WeightsSumToOne(sharpes: seq<real>, floor: real, cap: real)
    requires NonNegative(sharpes) && floor >= 0.0 && cap >= 0.0 && |sharpes| > 0
    ensures SumReal(Weights(sharpes, floor, cap)) == 1.0
  {
    if SumReal(sharpes) == 0.0 {
      SumOnes(|sharpes|);
      SumOver(Ones(|sharpes|), |sharpes| as real);
      SelfQuotient(|sharpes| as real);
    } else if |sharpes| == 1 {
      StartWeights(sharpes);
    } else {
      OverOne(Floored(sharpes, floor, cap));
    }
  }

  lemma {:induction false} EqualShare(n: nat, floor: real)
    requires n > 0 && Feasible(n, floor)
    ensures 1.0 / n as real >= floor + EPS && 1.0 / n as real >= 0.0
    ensures n == 1 ==> 1.0 >= floor + EPS
  {
    var q := 1.0 / n as real;
    assert q * n as real == 1.0;
    DivideMonotone(0.0, 1.0, n as real);
    if q < floor + EPS {
      ProductSign(floor + EPS - q, n as real);
      assert false;
    }
  }

  lemma {:induction false} OneMore(n: nat, x: real)
    ensures (n + 1) as real * x == n as real * x + x
  {
  }

  lemma {:induction false} SumAtLeast(w: seq<real>, bound: real)
    requires forall i :: 0 <= i < |w| ==> w[i] >= bound
    ensures SumReal(w) >= |w| as real * bound
  {
    if w != [] {
      SumAtLeast(w[..|w| - 1], bound);
      OneMore(|w| - 1, bound);
    }
  }

  /** A feasible floor holds for any number of strategies: every pass quarters the potential, and fifty are enough. */
  lemma {:induction false} FloorHolds(sharpes: seq<real>, floor: real, cap: real, i: nat)
    requires NonNegative(sharpes) && floor >= 0.0 && cap >= 0.0
    requires Feasible(|sharpes|, floor) && i < |sharpes|
    ensures Weights(sharpes, floor, cap)[i] >= floor - EPS
    ensures Weights(sharpes, floor, cap)[i] >= 0.0
  {
    hide NonNegative, Feasible, FloorLoop, Capped, SumReal;
    if SumReal(sharpes) == 0.0 || |sharpes| == 1 {
      EqualFloor(sharpes, floor, cap, i);
    } else {
      CappedTotal(sharpes, cap);
      PotentialAtStart(Capped(sharpes, cap), floor);
      FloorLoopSettles(Capped(sharpes, cap), floor, PASSES);
      OverOne(Floored(sharpes, floor, cap));
      SettledAt(Floored(sharpes, floor, cap), floor, i);
    }
  }

  lemma {:induction false} SettledAt(w: seq<real>, floor: real, i: nat)
    requires FloorSettled(w, floor) && NonNegative(w) && i < |w|
    ensures w[i] >= floor - EPS && w[i] >= 0.0
  {
    assert !UnderFloor(w, floor)[i];
  }

  lemma {:induction false} EqualFloor(sharpes: seq<real>, floor: real, cap: real, i: nat)
    requires NonNegative(sharpes) && floor >= 0.0 && cap >= 0.0
    requires Feasible(|sharpes|, floor) && i < |sharpes| && (SumReal(sharpes) == 0.0 || |sharpes| == 1)
    ensures Weights(sharpes, floor, cap)[i] >= floor - EPS
    ensures Weights(sharpes, floor, cap)[i] >= 0.0
  {
    var n := |sharpes|;
    EqualShare(n, floor);
    if SumReal(sharpes) != 0.0 {
      assert sharpes[..0] == [];
      assert SumReal(sharpes) == sharpes[0];
      SelfQuotient(sharpes[0]);
    }
  }

  /** A floor too high for the number of strategies is always broken. */
  lemma {:induction false} InfeasibleFloorFails(sharpes: seq<real>, floor: real, cap: real)
    requires NonNegative(sharpes) && floor >= 0.0 && cap >= 0.0 && |sharpes| > 0
    requires |sharpes| as real * (floor - EPS) > 1.0
    ensures exists i :: 0 <= i < |sharpes| && Weights(sharpes, floor, cap)[i] < floor - EPS
  {
    hide Weights;
    WeightsSumToOne(sharpes, floor, cap);
    var w := Weights(sharpes, floor, cap);
    if forall i :: 0 <= i < |w| ==> w[i] >= floor - EPS {
      SumAtLeast(w, floor - EPS);
      assert false;
    }
  }

  /** Unless it is within the tolerance of an equal share, the floor holds exactly if it is feasible. */
  lemma {:induction false} FloorHoldsIffFeasible(sharpes: seq<real>, floor: real, cap: real)
    requires NonNegative(sharpes) && floor >= 0.0 && cap >= 0.0 && |sharpes| > 0
    requires !(|sharpes| as real * (floor - EPS) <= 1.0 < |sharpes| as real * (floor + EPS))
    ensures (forall i :: 0 <= i < |sharpes| ==> Weights(sharpes, floor, cap)[i] >= floor - EPS)
       <==> Feasible(|sharpes|, floor)
  {
    hide Weights, NonNegative;
    if Feasible(|sharpes|, floor) {
      forall i | 0 <= i < |sharpes| ensures Weights(sharpes, floor, cap)[i] >= floor - EPS {
        FloorHolds(sharpes, floor, cap, i);
      }
    } else {
      InfeasibleFloorFails(sharpes, floor, cap);
    }
  }

  /** If the cap phase ended with nothing over the cap, raising floors and normalising keep it so. */
  lemma {:induction false} CapHoldsIfSettled(sharpes: seq<real>, floor: real, cap: real, i: nat)
    requires NonNegative(sharpes) && SumReal(sharpes) != 0.0 && 0.0 <= floor <= cap
    requires CapSettled(Capped(sharpes, cap), cap)
    requires |sharpes| >= 2 && i < |sharpes|
    ensures Weights(sharpes, floor, cap)[i] <= cap + EPS
  {
    var w := Capped(sharpes, cap);
    assert forall j :: 0 <= j < |w| ==> !OverCap(w, cap)[j];
    FloorLoopKeepsCap(w, floor, cap, PASSES);
    OverOne(Floored(sharpes, floor, cap));
  }

  lemma {:induction false} SumAtMost(w: seq<real>, bound: real)
    requires forall i :: 0 <= i < |w| ==> w[i] <= bound
    ensures SumReal(w) <= |w| as real * bound
  {
    if w != [] {
      SumAtMost(w[..|w| - 1], bound);
      assert |w| as real * bound == (|w| - 1) as real * bound + bound;
    }
  }

  /** A cap too small for the number of strategies is always broken: the weights still add up to one. */
  lemma {:induction false} InfeasibleCapFails(sharpes: seq<real>, floor: real, cap: real)
    requires NonNegative(sharpes) && floor >= 0.0 && cap >= 0.0 && |sharpes| > 0
    requires |sharpes| as real * (cap + EPS) < 1.0
    ensures exists i :: 0 <= i < |sharpes| && Weights(sharpes, floor, cap)[i] > cap + EPS
  {
    hide Weights;
    WeightsSumToOne(sharpes, floor, cap);
    var w := Weights(sharpes, floor, cap);
    if forall i :: 0 <= i < |w| ==> w[i] <= cap + EPS {
      SumAtMost(w, cap + EPS);
      assert false;
    }
  }

  // ---------------------------------------------------------------- when the documented cap holds

  /** Which strategies have a positive Sharpe. */
  function Positive(sharpes: seq<real>): (mask: seq<bool>)
    ensures |mask| == |sharpes| && forall i :: 0 <= i < |sharpes| ==> mask[i] == (sharpes[i] > 0.0)
  {
    seq(|sharpes|, i requires 0 <= i < |sharpes| => sharpes[i] > 0.0)
  }

  /** Every strategy with a positive Sharpe has a share over the cap. */
  ghost predicate AllStartOver(sharpes: seq<real>, cap: real)
    requires SumReal(sharpes) != 0.0
  {
    forall i :: 0 <= i < |sharpes| && sharpes[i] > 0.0 ==> sharpes[i] / SumReal(sharpes) > cap + EPS
  }

  /** The strategies with a positive Sharpe at the cap and the others at the floor do not use up the capital. */
  predicate Crowded(sharpes: seq<real>, floor: real, cap: real) {
    var k := CountIf(Positive(sharpes));
    (cap + EPS) * k as real + floor * (|sharpes| - k) as real < 1.0
  }

  /** What m strategies at the cap leave of the capital. */
  function Remainder(cap: real, m: nat): real {
    1.0 - cap * m as real
  }

  /** What a strategy within the cap holds after the first pass: its part of what the caps leave. */
  function FirstHolding(sharpe: real, freeSharpe: real, freeCount: nat, rest: real): real
    requires freeCount > 0
  {
    if freeSharpe > 0.0 then sharpe * rest / freeSharpe else rest / freeCount as real
  }

  /** What strategy i holds after the first pass if it starts within the cap. */
  function AfterFirst(sharpes: seq<real>, cap: real, i: nat): real
    requires SumReal(sharpes) != 0.0 && i < |sharpes|
  {
    var over := OverCap(Over(sharpes, SumReal(sharpes)), cap);
    var free := Not(over);
    if CountIf(free) == 0 then cap
    else FirstHolding(sharpes[i], SumIf(sharpes, free), CountIf(free), Remainder(cap, CountIf(over)))
  }

  /**
   * One redistribution of the starting excess leaves nothing over the cap: the strategies within it divide
   * what the others leave of the capital at the cap, by Sharpe or equally.
   */
  ghost predicate FirstPassFits(sharpes: seq<real>, cap: real)
    requires SumReal(sharpes) != 0.0
  {
    var over := OverCap(Over(sharpes, SumReal(sharpes)), cap);
    var free := Not(over);
    CountIf(over) == 0 ||
    (CountIf(free) > 0 &&
     forall i :: 0 <= i < |sharpes| && free[i] ==> AfterFirst(sharpes, cap, i) <= cap + EPS)
  }

  /** The excess of the first pass, in terms of the shares. */
  lemma {:induction false} FirstExcess(sharpes: seq<real>, cap: real)
    requires NonNegative(sharpes) && SumReal(sharpes) != 0.0
    ensures var start := Over(sharpes, SumReal(sharpes));
            var over := OverCap(start, cap);
            Excess(start, cap) == Remainder(cap, CountIf(over)) - SumIf(sharpes, Not(over)) / SumReal(sharpes)
  {
    hide SumIf, SumReal, CountIf, OverCap, Not, Minus, NonNegative, Over;
    var total := SumReal(sharpes);
    var start := Over(sharpes, total);
    var over := OverCap(start, cap);
    StartWeights(sharpes);
    SumIfSplits(start, over);
    SumIfOver(sharpes, Not(over), total);
    SumIfMinus(start, over, cap);
  }

  /** It is made up of the starting share and a part of the excess. */
  lemma {:induction false} FirstShare(sharpe: real, total: real, freeSharpe: real, freeCount: nat, rest: real)
    requires total > 0.0 && 0.0 <= sharpe <= freeSharpe && freeCount > 0
    ensures sharpe / total + ShareOf(rest - freeSharpe / total, sharpe, freeSharpe, freeCount)
         == FirstHolding(sharpe, freeSharpe, freeCount, rest)
  {
    if freeSharpe > 0.0 {
      var q := sharpe / freeSharpe;
      assert q * freeSharpe == sharpe;
      assert freeSharpe / total * q == sharpe / total;
    } else {
      assert sharpe == 0.0 && freeSharpe == 0.0;
    }
  }

  lemma {:induction false} FirstPassAt(sharpes: seq<real>, cap: real, i: nat)
    requires NonNegative(sharpes) && SumReal(sharpes) != 0.0 && i < |sharpes|
    requires var start := Over(sharpes, SumReal(sharpes));
             CountIf(OverCap(start, cap)) < |sharpes| && !OverCap(start, cap)[i]
    ensures var start := Over(sharpes, SumReal(sharpes));
            var over := OverCap(start, cap);
            var free := Not(over);
            CountIf(free) == |sharpes| - CountIf(over) > 0 &&
            CapPass(start, sharpes, cap)[i] == AfterFirst(sharpes, cap, i)
  {
    hide SumIf, SumReal, CountIf, OverCap, Not, CapPass, CapGain, Excess, Remainder, ShareOf, FirstHolding;
    var total := SumReal(sharpes);
    var start := Over(sharpes, total);
    var free := Not(OverCap(start, cap));
    CountNot(OverCap(start, cap));
    TotalNonNegative(sharpes);
    FirstExcess(sharpes, cap);
    ShareAt(start, sharpes, cap, i);
    SumIfNonNegative(sharpes, free);
    assert start[i] == sharpes[i] / total;
    FirstShare(sharpes[i], total, SumIf(sharpes, free), CountIf(free), Remainder(cap, CountIf(OverCap(start, cap))));
  }

  lemma {:induction false} FirstPassWithin(sharpes: seq<real>, cap: real, i: nat)
    requires NonNegative(sharpes) && SumReal(sharpes) != 0.0 && i < |sharpes|
    requires var start := Over(sharpes, SumReal(sharpes));
             !CapSettled(start, cap) && CountIf(OverCap(start, cap)) < |sharpes|
    requires FirstPassFits(sharpes, cap)
    ensures var start := Over(sharpes, SumReal(sharpes));
            CountIf(Not(OverCap(start, cap))) > 0 && CapPass(start, sharpes, cap)[i] <= cap + EPS
  {
    hide SumIf, SumReal, CountIf, OverCap, Not, CapGain, NonNegative, Over, AfterFirst;
    var start := Over(sharpes, SumReal(sharpes));
    var over := OverCap(start, cap);
    CountNot(over);
    if !over[i] {
      FirstPassAt(sharpes, cap, i);
    }
  }

  /** If one redistribution suffices on paper, the computed weights keep the cap. */
  lemma {:induction false} CapHoldsIfFirstPassFits(sharpes: seq<real>, floor: real, cap: real, i: nat)
    requires NonNegative(sharpes) && SumReal(sharpes) != 0.0 && 0.0 <= floor <= cap
    requires FirstPassFits(sharpes, cap)
    requires |sharpes| >= 2 && i < |sharpes|
    ensures Weights(sharpes, floor, cap)[i] <= cap + EPS
  {
    hide SumIf, SumReal, CountIf, OverCap, Not, CapGain, NonNegative, Over, CapPass, Weights;
    var start := Over(sharpes, SumReal(sharpes));
    if !CapSettled(start, cap) {
      CountNot(OverCap(start, cap));
      forall j | 0 <= j < |sharpes| ensures CapPass(start, sharpes, cap)[j] <= cap + EPS {
        FirstPassWithin(sharpes, cap, j);
      }
      var next := CapPass(start, sharpes, cap);
      assert forall j :: 0 <= j < |next| ==> !OverCap(next, cap)[j];
      assert CapSettled(next, cap);
      assert CapLoop(start, sharpes, cap, PASSES) == CapLoop(next, sharpes, cap, PASSES - 1) == next;
    }
    CapHoldsIfSettled(sharpes, floor, cap, i);
  }

  // ---------------------------------------------------------------- the crowded case, decided exactly

  /** Strategies without a positive Sharpe hold nothing, and some other strategy is within the cap. */
  ghost predicate PositiveHold(w: seq<real>, sharpes: seq<real>, cap: real) {
    |w| == |sharpes| &&
    (forall i :: 0 <= i < |w| && sharpes[i] == 0.0 ==> w[i] == 0.0) &&
    (exists i :: 0 <= i < |w| && sharpes[i] > 0.0 && w[i] <= cap + EPS)
  }

  /** While some strategy with a positive Sharpe is within the cap, the others are handed nothing. */
  lemma {:induction false} CapPassKeepsZero(w: seq<real>, sharpes: seq<real>, cap: real)
    requires NonNegative(sharpes) && cap >= 0.0 && PositiveHold(w, sharpes, cap)
    requires !CapSettled(w, cap)
    ensures CountIf(Not(OverCap(w, cap))) > 0
    ensures PositiveHold(CapPass(w, sharpes, cap), sharpes, cap)
  {
    hide SumIf, CountIf, CapGain, Excess;
    var over := OverCap(w, cap);
    var free := Not(over);
    var j :| 0 <= j < |w| && sharpes[j] > 0.0 && w[j] <= cap + EPS;
    assert free[j];
    SomeMarked(free, j);
    SumIfNonNegative(sharpes, free);
    var r := CapPass(w, sharpes, cap);
    forall i | 0 <= i < |w| && sharpes[i] == 0.0 ensures r[i] == 0.0 {
      ShareAt(w, sharpes, cap, i);
    }
    var o := SomeIndex(over);
    assert sharpes[o] > 0.0 && r[o] == cap;
  }

  lemma {:induction false} CapLoopKeepsZero(w: seq<real>, sharpes: seq<real>, cap: real, passes: nat)
    requires |w| == |sharpes| && NonNegative(sharpes) && cap >= 0.0 && PositiveHold(w, sharpes, cap)
    ensures PositiveHold(CapLoop(w, sharpes, cap, passes), sharpes, cap)
    decreases passes
  {
    hide CountIf, OverCap, Not, CapPass, PositiveHold, NonNegative;
    if !(passes == 0 || CapSettled(w, cap) || CountIf(Not(OverCap(w, cap))) == 0) {
      CapPassKeepsZero(w, sharpes, cap);
      CapLoopKeepsZero(CapPass(w, sharpes, cap), sharpes, cap, passes - 1);
    }
  }

  /** The floor phase lifts a strategy at most to the floor. */
  lemma {:induction false} FloorLoopStaysLow(w: seq<real>, sharpes: seq<real>, floor: real, passes: nat)
    requires floor >= 0.0 && |w| == |sharpes|
    requires forall i :: 0 <= i < |w| && sharpes[i] == 0.0 ==> w[i] <= floor
    ensures forall i :: 0 <= i < |w| && sharpes[i] == 0.0 ==> FloorLoop(w, floor, passes)[i] <= floor
    decreases passes
  {
    hide CountIf, AboveFloor, FloorLoss, AboveTotal;
    if !(passes == 0 || FloorSettled(w, floor) || CountIf(AboveFloor(w, floor)) == 0) {
      AboveTotalPositive(w, floor);
      FloorLoopStaysLow(FloorPass(w, floor), sharpes, floor, passes - 1);
    }
  }

  lemma {:induction false} SumSplitAtMost(w: seq<real>, mask: seq<bool>, high: real, low: real)
    requires |w| == |mask| && forall i :: 0 <= i < |w| ==> w[i] <= if mask[i] then high else low
    ensures SumReal(w) <= high * CountIf(mask) as real + low * (|w| - CountIf(mask)) as real
  {
    hide SumReal, SumIf, CountIf;
    SumIfSplits(w, mask);
    SumIfAtMost(w, mask, high);
    SumIfAtMost(w, Not(mask), low);
    CountNot(mask);
  }

  /** The cap misses an equal share of the capital by no more than the tolerance. */
  predicate Borderline(sharpes: seq<real>, cap: real) {
    var n, k := |sharpes|, CountIf(Positive(sharpes));
    n as real * cap + (n - k) as real * EPS < 1.0 <= n as real * (cap + EPS)
  }

  /** With some positive share within the cap, the strategies without a Sharpe end at the floor or below. */
  lemma {:induction false} WithoutSharpeStaysLow(sharpes: seq<real>, floor: real, cap: real)
    requires NonNegative(sharpes) && SumReal(sharpes) != 0.0 && floor >= 0.0 && cap >= 0.0
    requires !AllStartOver(sharpes, cap)
    ensures forall i :: 0 <= i < |sharpes| && sharpes[i] == 0.0 ==> Floored(sharpes, floor, cap)[i] <= floor
  {
    hide SumIf, SumReal, CountIf, CapLoop, FloorLoop, NonNegative;
    var start := Over(sharpes, SumReal(sharpes));
    assert PositiveHold(start, sharpes, cap) by {
      var j :| 0 <= j < |sharpes| && sharpes[j] > 0.0 && sharpes[j] / SumReal(sharpes) <= cap + EPS;
      assert start[j] <= cap + EPS;
    }
    CapLoopKeepsZero(start, sharpes, cap, PASSES);
    FloorLoopStaysLow(Capped(sharpes, cap), sharpes, floor, PASSES);
  }

  /** So the others together hold more than their caps, if they are crowded. */
  lemma {:induction false} CrowdedCapFails(sharpes: seq<real>, floor: real, cap: real)
    requires NonNegative(sharpes) && SumReal(sharpes) != 0.0 && floor >= 0.0 && cap >= 0.0 && |sharpes| >= 2
    requires Crowded(sharpes, floor, cap) && !AllStartOver(sharpes, cap)
    ensures exists i :: 0 <= i < |sharpes| && Weights(sharpes, floor, cap)[i] > cap + EPS
  {
    hide SumReal, Crowded, AllStartOver, Floored, NonNegative;
    WithoutSharpeStaysLow(sharpes, floor, cap);
    var w := Floored(sharpes, floor, cap);
    OverOne(w);
    assert Weights(sharpes, floor, cap) == w;
    if forall i :: 0 <= i < |w| ==> w[i] <= cap + EPS {
      CrowdedTotal(sharpes, w, floor, cap);
      assert false;
    }
    var i :| 0 <= i < |w| && w[i] > cap + EPS;
    assert Weights(sharpes, floor, cap)[i] > cap + EPS;
  }

  lemma {:induction false} CrowdedTotal(sharpes: seq<real>, w: seq<real>, floor: real, cap: real)
    requires |w| == |sharpes| && NonNegative(sharpes) && Crowded(sharpes, floor, cap)
    requires forall i :: 0 <= i < |w| ==> w[i] <= cap + EPS
    requires forall i :: 0 <= i < |w| && sharpes[i] == 0.0 ==> w[i] <= floor
    ensures SumReal(w) < 1.0
  {
    hide SumReal, CountIf;
    SumSplitAtMost(w, Positive(sharpes), cap + EPS, floor);
  }

  lemma {:induction false} DivideAtMost(x: real, n: nat, bound: real)
    requires n > 0 && x <= n as real * bound
    ensures x / n as real <= bound
  {
    DivideMonotone(x, n as real * bound, n as real);
  }

  /** Strategies that all start over a cap cannot all be within a feasible one. */
  lemma {:induction false} SomeWithoutSharpe(sharpes: seq<real>, cap: real)
    requires NonNegative(sharpes) && SumReal(sharpes) != 0.0 && cap >= 0.0
    requires AllStartOver(sharpes, cap) && |sharpes| as real * cap >= 1.0
    ensures CountIf(Not(Positive(sharpes))) > 0
  {
    hide SumReal, CountIf;
    SomeStrategy(sharpes);
    StartWeights(sharpes);
    assert |sharpes| as real * (cap + EPS) == |sharpes| as real * cap + |sharpes| as real * EPS;
    if CountIf(Not(Positive(sharpes))) == 0 {
      AllPositive(sharpes);
      SumAtLeast(Over(sharpes, SumReal(sharpes)), cap + EPS);
    }
  }

  lemma {:induction false} SomeStrategy(sharpes: seq<real>)
    requires SumReal(sharpes) != 0.0
    ensures |sharpes| > 0
  {
  }

  /** A feasible cap leaves an equal share of the rest within the cap. */
  lemma {:induction false} EqualRestFits(n: nat, k: nat, cap: real)
    requires k < n && n as real * cap + (n - k) as real * EPS >= 1.0
    ensures Remainder(cap, k) / (n - k) as real <= cap + EPS
  {
    assert n as real * cap == cap * k as real + (n - k) as real * cap;
    DivideAtMost(Remainder(cap, k), n - k, cap + EPS);
  }

  /** If every positive share starts over a feasible cap, the first pass hands the rest out equally and fits. */
  lemma {:induction false} AllOverFits(sharpes: seq<real>, cap: real)
    requires NonNegative(sharpes) && SumReal(sharpes) != 0.0 && cap >= 0.0
    requires AllStartOver(sharpes, cap) && !Borderline(sharpes, cap) && |sharpes| as real * (cap + EPS) >= 1.0
    ensures FirstPassFits(sharpes, cap)
  {
    hide SumIf, SumReal, CountIf, Remainder;
    var n, total, positive := |sharpes|, SumReal(sharpes), Positive(sharpes);
    var k := CountIf(positive);
    TotalNonNegative(sharpes);
    assert OverCap(Over(sharpes, total), cap) == positive;
    CountNot(positive);
    if k == n {
      SomeWithoutSharpe(sharpes, cap);
    }
    NegatedSumIf(sharpes, Not(positive));
    EqualRestFits(n, k, cap);
  }

  lemma {:induction false} AllPositive(sharpes: seq<real>)
    requires CountIf(Not(Positive(sharpes))) == 0
    ensures forall i :: 0 <= i < |sharpes| ==> sharpes[i] > 0.0
  {
    assert forall i :: 0 <= i < |sharpes| ==> !Not(Positive(sharpes))[i];
  }

  /**
   * Where the strategies with a positive Sharpe cannot hold the capital within the cap, or all start over it, the cap
   * holds exactly if all of them start over it and the cap is feasible for the number of strategies.
   */
  lemma {:induction false} CapHoldsIffAllStartOver(sharpes: seq<real>, floor: real, cap: real)
    requires NonNegative(sharpes) && SumReal(sharpes) != 0.0 && 0.0 <= floor <= cap && |sharpes| >= 2
    requires Crowded(sharpes, floor, cap) || AllStartOver(sharpes, cap)
    requires AllStartOver(sharpes, cap) ==> !Borderline(sharpes, cap)
    ensures (forall i :: 0 <= i < |sharpes| ==> Weights(sharpes, floor, cap)[i] <= cap + EPS)
       <==> AllStartOver(sharpes, cap) && |sharpes| as real * (cap + EPS) >= 1.0
  {
    hide SumReal, Weights, AllStartOver, Borderline, Crowded, NonNegative, FirstPassFits;
    if |sharpes| as real * (cap + EPS) < 1.0 {
      InfeasibleCapFails(sharpes, floor, cap);
    } else if !AllStartOver(sharpes, cap) {
      CrowdedCapFails(sharpes, floor, cap);
    } else {
      AllOverFits(sharpes, cap);
      forall i | 0 <= i < |sharpes| ensures Weights(sharpes, floor, cap)[i] <= cap + EPS {
        CapHoldsIfFirstPassFits(sharpes, floor, cap, i);
      }
    }
  }

  /** Without any Sharpe, or with a single strategy, weights are equal and the cap holds exactly if it is feasible. */
  lemma {:induction false} EqualWeightsCap(sharpes: seq<real>, floor: real, cap: real)
    requires NonNegative(sharpes) && floor >= 0.0 && cap >= 0.0 && sharpes != []
    requires SumReal(sharpes) == 0.0 || |sharpes| == 1
    ensures (forall i :: 0 <= i < |sharpes| ==> Weights(sharpes, floor, cap)[i] <= cap + EPS)
       <==> |sharpes| as real * (cap + EPS) >= 1.0
  {
    var n := |sharpes|;
    if n as real * (cap + EPS) >= 1.0 {
      DivideAtMost(1.0, n, cap + EPS);
    } else {
      InfeasibleCapFails(sharpes, floor, cap);
    }
    if n == 1 && SumReal(sharpes) != 0.0 {
      assert sharpes[..0] == [];
      assert SumReal(sharpes) == sharpes[0];
      SelfQuotient(sharpes[0]);
    }
  }

  // ---------------------------------------------------------------- the documented cap is not unconditional

  lemma {:induction false} Unroll(a: real, b: real, c: real, p: bool, q: bool, r: bool)
    ensures SumIf([a, b, c], [p, q, r]) == (if p then a else 0.0) + (if q then b else 0.0) + (if r then c else 0.0)
    ensures CountIf([p, q, r]) == (if p then 1 else 0) + (if q then 1 else 0) + (if r then 1 else 0)
    ensures SumReal([a, b, c]) == a + b + c
  {
    assert [a, b, c][..2] == [a, b] && [a, b][..1] == [a] && [a][..0] == [];
    assert [p, q, r][..2] == [p, q] && [p, q][..1] == [p] && [p][..0] == [];
    assert SumIf([a], [p]) == if p then a else 0.0;
    assert SumIf([a, b], [p, q]) == (if p then a else 0.0) + (if q then b else 0.0);
    assert CountIf([p]) == if p then 1 else 0;
    assert SumReal([a]) == a;
    assert SumReal([a, b]) == a + b;
  }

  const SWING := [10.0, 1.0, 0.0]

  /** With the first strategy over the cap, the second receives the whole excess ... */
  lemma {:induction false} SwingRight(x: real, y: real)
    requires x > 0.4 + EPS && y <= 0.4 + EPS
    ensures !CapSettled([x, y, 0.0], 0.4) && CountIf(Not(OverCap([x, y, 0.0], 0.4))) > 0
    ensures CapPass([x, y, 0.0], SWING, 0.4) == [0.4, y + (x - 0.4), 0.0]
  {
    var w := [x, y, 0.0];
    assert OverCap(w, 0.4) == [true, false, false] && Not([true, false, false]) == [false, true, true];
    assert Minus(w, 0.4) == [x - 0.4, y - 0.4, 0.0 - 0.4];
    Unroll(x - 0.4, y - 0.4, 0.0 - 0.4, true, false, false);
    Unroll(10.0, 1.0, 0.0, false, true, true);
    assert Over(SWING, 1.0) == SWING;
    assert By(SWING, x - 0.4) == [(x - 0.4) * 10.0, x - 0.4, 0.0];
    assert CapGain(w, SWING, 0.4) == [(x - 0.4) * 10.0, x - 0.4, 0.0];
  }

  /** ... and hands it straight back, because a capped strategy counts as free again. */
  lemma {:induction false} SwingLeft()
    ensures !CapSettled([0.4, 0.6, 0.0], 0.4) && CountIf(Not(OverCap([0.4, 0.6, 0.0], 0.4))) > 0
    ensures CapPass([0.4, 0.6, 0.0], SWING, 0.4) == [0.6, 0.4, 0.0]
  {
    var w := [0.4, 0.6, 0.0];
    assert OverCap(w, 0.4) == [false, true, false] && Not([false, true, false]) == [true, false, true];
    assert Minus(w, 0.4) == [0.0, 0.2, 0.0 - 0.4];
    Unroll(0.0, 0.2, 0.0 - 0.4, false, true, false);
    Unroll(10.0, 1.0, 0.0, true, false, true);
    assert Over(SWING, 10.0) == [1.0, 0.1, 0.0];
    assert By([1.0, 0.1, 0.0], 0.2) == [0.2, 0.02, 0.0];
    assert CapGain(w, SWING, 0.4) == [0.2, 0.02, 0.0];
  }

  /** The swing has period two and never settles. */
  lemma {:induction false} Swing(passes: nat)
    ensures CapLoop([0.4, 0.6, 0.0], SWING, 0.4, 2 * passes + 1) == [0.6, 0.4, 0.0]
  {
    hide CapPass, OverCap, Not, CountIf;
    SwingLeft();
    if passes > 0 {
      SwingRight(0.6, 0.4);
      assert [0.4, 0.4 + (0.6 - 0.4), 0.0] == [0.4, 0.6, 0.0];
      Swing(passes - 1);
      assert CapLoop([0.6, 0.4, 0.0], SWING, 0.4, 2 * passes) == CapLoop([0.4, 0.6, 0.0], SWING, 0.4, 2 * passes - 1);
    }
  }

  /** The docstring's unconditional cap fails: Sharpes 10, 1, 0 end at a weight of 0.594 under a cap of 0.4. */
  lemma {:induction false} CapIsNotUnconditional()
    ensures Weights(SWING, 0.01, 0.4) == [0.594, 0.396, 0.01]
  {
    Unroll(10.0, 1.0, 0.0, true, true, true);
    var start := Over(SWING, 11.0);
    assert start == [10.0 / 11.0, 1.0 / 11.0, 0.0];
    SwingRight(10.0 / 11.0, 1.0 / 11.0);
    assert [0.4, 1.0 / 11.0 + (10.0 / 11.0 - 0.4), 0.0] == [0.4, 0.6, 0.0];
    Swing(24);
    assert Capped(SWING, 0.4) == [0.6, 0.4, 0.0];
    SwingFloor();
    OverOne([0.594, 0.396, 0.01]);
  }

  lemma {:induction false} SwingFloor()
    ensures FloorLoop([0.6, 0.4, 0.0], 0.01, PASSES) == [0.594, 0.396, 0.01]
  {
    var w := [0.6, 0.4, 0.0];
    assert UnderFloor(w, 0.01) == [false, false, true] && AboveFloor(w, 0.01) == [true, true, false];
    assert Minus(w, 0.01) == [0.59, 0.39, -0.01];
    Unroll(0.59, 0.39, -0.01, false, false, true);
    Unroll(0.6, 0.4, 0.0, true, true, false);
    assert Over(w, 1.0) == w;
    assert By(w, 0.01) == [0.006, 0.004, 0.0];
    assert FloorPass(w, 0.01) == [0.594, 0.396, 0.01];
    assert UnderFloor([0.594, 0.396, 0.01], 0.01) == [false, false, false];
    Unroll(0.0, 0.0, 0.0, false, false, false);
    assert FloorSettled([0.594, 0.396, 0.01], 0.01);
  }

  // ---------------------------------------------------------------- the loops

  /** compute_strategy_weights, from the Sharpes on. */
  method ComputeStrategyWeights(sharpes: seq<real>, floor: real, cap: real) returns (weights: seq<real>)
    requires NonNegative(sharpes) && floor >= 0.0 && cap >= 0.0
    ensures weights == Weights(sharpes, floor, cap)
  {
    hide CapLoop, FloorLoop, NonNegative;
    var n := |sharpes|;
    if n == 0 {
      return [];
    }
    var total := SumReal(sharpes);
    if total == 0.0 {
      return Over(Ones(n), n as real);
    }
    weights := Over(sharpes, total);
    if n == 1 {
      return;
    }
    weights := CapPhase(weights, sharpes, cap);
    weights := FloorPhase(weights, floor);
    assert weights == Floored(sharpes, floor, cap);
    weights := Over(weights, SumReal(weights));
  }

  method CapPhase(start: seq<real>, sharpes: seq<real>, cap: real) returns (weights: seq<real>)
    requires |start| == |sharpes|
    ensures weights == CapLoop(start, sharpes, cap, PASSES)
  {
    hide CapPass, OverCap, Not, CountIf;
    weights := start;
    for pass := 0 to PASSES
      invariant |weights| == |sharpes|
      invariant CapLoop(weights, sharpes, cap, PASSES - pass) == CapLoop(start, sharpes, cap, PASSES)
    {
      if CapSettled(weights, cap) {
        break;
      }
      if CountIf(Not(OverCap(weights, cap))) == 0 {
        break;
      }
      weights := RedistributeExcess(weights, sharpes, cap);
    }
  }

  method FloorPhase(start: seq<real>, floor: real) returns (weights: seq<real>)
    requires floor >= 0.0
    ensures weights == FloorLoop(start, floor, PASSES)
  {
    hide FloorPass, AboveFloor, UnderFloor, AboveTotal, CountIf;
    weights := start;
    for pass := 0 to PASSES
      invariant FloorLoop(weights, floor, PASSES - pass) == FloorLoop(start, floor, PASSES)
    {
      if FloorSettled(weights, floor) {
        break;
      }
      if CountIf(AboveFloor(weights, floor)) == 0 {
        break;
      }
      weights := RaiseToFloor(weights, floor);
    }
  }

  /** One pass of the cap phase, strategy by strategy. */
  method RedistributeExcess(w: seq<real>, sharpes: seq<real>, cap: real) returns (r: seq<real>)
    requires |w| == |sharpes| && CountIf(Not(OverCap(w, cap))) > 0
    ensures r == CapPass(w, sharpes, cap)
  {
    hide CapGain, CapPass, Excess, ShareOf;
    var free := Not(OverCap(w, cap));
    var excess, freeSharpe := Excess(w, cap), SumIf(sharpes, free);
    r := [];
    for i := 0 to |w|
      invariant |r| == i && r == CapPass(w, sharpes, cap)[..i]
    {
      var next := cap;
      if free[i] {
        ShareAt(w, sharpes, cap, i);
        next := w[i] + ShareOf(excess, sharpes[i], freeSharpe, CountIf(free));
      }
      r := r + [next];
    }
  }

  /** One pass of the floor phase, strategy by strategy. */
  method RaiseToFloor(w: seq<real>, floor: real) returns (r: seq<real>)
    requires floor >= 0.0 && CountIf(AboveFloor(w, floor)) > 0
    ensures AboveTotal(w, floor) != 0.0 && r == FloorPass(w, floor)
  {
    hide FloorPass, FloorLoss, Deficit, AboveTotal, PaymentOf;
    AboveTotalPositive(w, floor);
    var deficit, aboveTotal := Deficit(w, floor), AboveTotal(w, floor);
    r := w;
    for i := 0 to |w|
      invariant |r| == |w|
      invariant forall j :: 0 <= j < |w| ==> r[j] == if j < i then FloorPass(w, floor)[j] else w[j]
    {
      PaymentAt(w, floor, i);
      if w[i] < floor - EPS {
        r := r[i := floor];
      } else if w[i] > floor + EPS {
        r := r[i := w[i] - PaymentOf(deficit, w[i], aboveTotal)];
      }
    }
  }
}
