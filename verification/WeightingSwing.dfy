/** Where one redistribution of the excess does not suffice: two strategies over the cap in turn (risk/weighting.py). */
module WeightingSwing {
  import opened Numbers
  import opened Collections
  import opened Weighting

  // ---------------------------------------------------------------- the swing between two capped strategies

  /** The part of an excess that comes back over the cap on the other side. */
  function Passed(excess: real, part: real): real {
    excess * part
  }

  lemma {:induction false} PassedRange(excess: real, part: real)
    requires excess >= 0.0 && 0.0 <= part <= 1.0
    ensures 0.0 <= Passed(excess, part) <= excess
  {
    ProductSign(excess, part);
    ProductSign(excess, 1.0 - part);
    assert excess * (1.0 - part) == excess - excess * part;
  }

  /** What is left of an excess that passes to and fro, each time keeping one of two parts of it. */
  function LastExcess(excess: real, part: real, next: real, passes: nat): real
    decreases passes
  {
    if passes == 0 then excess else LastExcess(Passed(excess, part), next, part, passes - 1)
  }

  lemma {:induction false} OnePassLess(excess: real, part: real, next: real, passes: nat)
    requires passes > 0
    ensures LastExcess(excess, part, next, passes) == LastExcess(Passed(excess, part), next, part, passes - 1)
  {
  }

  /** The excess after an even and an odd number of passes, as a power of the product of the two parts. */
  lemma {:induction false} LastExcessIsGeometric(excess: real, part: real, next: real, rounds: nat)
    ensures LastExcess(excess, part, next, 2 * rounds) == excess * Power(part * next, rounds)
    ensures LastExcess(excess, part, next, 2 * rounds + 1) == excess * part * Power(part * next, rounds)
  {
    hide Passed, LastExcess, Power;
    EvenPasses(excess, part, next, rounds);
    OnePassLess(excess, part, next, 2 * rounds + 1);
    EvenPasses(Passed(excess, part), next, part, rounds);
    PassedIs(excess, part);
    assert part * next == next * part;
  }

  lemma {:induction false} PassedIs(excess: real, part: real)
    ensures Passed(excess, part) == excess * part
  {
  }

  lemma {:induction false} EvenPasses(excess: real, part: real, next: real, rounds: nat)
    ensures LastExcess(excess, part, next, 2 * rounds) == excess * Power(part * next, rounds)
    decreases rounds
  {
    hide Passed, LastExcess;
    if rounds > 0 {
      OnePassLess(excess, part, next, 2 * rounds);
      OnePassLess(Passed(excess, part), next, part, 2 * rounds - 1);
      var left := Passed(Passed(excess, part), next);
      EvenPasses(left, part, next, rounds - 1);
      assert left == excess * (part * next) by {
        PassedIs(excess, part);
        PassedIs(Passed(excess, part), next);
      }
      var q := Power(part * next, rounds - 1);
      assert left * q == excess * ((part * next) * q);
    } else {
      NothingPassed(excess, part, next);
    }
  }

  lemma {:induction false} LastExcessShrinks(excess: real, part: real, next: real, passes: nat)
    requires excess >= 0.0 && 0.0 <= part <= 1.0 && 0.0 <= next <= 1.0
    ensures 0.0 <= LastExcess(excess, part, next, passes) <= excess
    decreases passes
  {
    hide Passed;
    if passes > 0 {
      PassedRange(excess, part);
      LastExcessShrinks(Passed(excess, part), next, part, passes - 1);
    }
  }

  /** Two members of a kept part add up to no more than it. */
  lemma {:induction false} SumIfTwo(values: seq<real>, keep: seq<bool>, i: nat, j: nat)
    requires |values| == |keep| && NonNegative(values)
    requires i < |values| && j < |values| && i != j && keep[i] && keep[j]
    ensures values[i] + values[j] <= SumIf(values, keep)
  {
    var n := |values| - 1;
    if i < n && j < n {
      SumIfTwo(values[..n], keep[..n], i, j);
    } else {
      SumIfNonNegative(values[..n], keep[..n]);
      var k := if i < n then i else j;
      assert keep[..n][k] && values[..n][k] == values[k];
    }
  }

  lemma {:induction false} SumIfSingle(values: seq<real>, keep: seq<bool>, i: nat)
    requires |values| == |keep| && i < |values|
    requires forall l :: 0 <= l < |keep| ==> keep[l] == (l == i)
    ensures SumIf(values, keep) == values[i]
  {
    var n := |values| - 1;
    if i < n {
      SumIfSingle(values[..n], keep[..n], i);
    } else {
      SumIfNone(values[..n], keep[..n]);
    }
  }

  lemma {:induction false} SumIfNone(values: seq<real>, keep: seq<bool>)
    requires |values| == |keep| && forall l :: 0 <= l < |keep| ==> !keep[l]
    ensures SumIf(values, keep) == 0.0
  {
    if values != [] {
      SumIfNone(values[..|values| - 1], keep[..|values| - 1]);
    }
  }

  /** The part of an excess of y that x receives if nobody else is over the cap; with others over it is more. */
  function PartOf(sharpes: seq<real>, x: nat, y: nat): real
    requires x < |sharpes| && y < |sharpes| && SumReal(sharpes) != sharpes[y]
  {
    sharpes[x] / (SumReal(sharpes) - sharpes[y])
  }

  lemma {:induction false} PartRange(sharpes: seq<real>, x: nat, y: nat)
    requires NonNegative(sharpes) && x < |sharpes| && y < |sharpes| && x != y && sharpes[x] > 0.0
    ensures SumReal(sharpes) - sharpes[y] > 0.0 && 0.0 <= PartOf(sharpes, x, y) <= 1.0
  {
    hide SumReal, SumIf;
    SumIfTwo(sharpes, All(|sharpes|), x, y);
    SumRealIsSumIf(sharpes, All(|sharpes|));
    var rest := SumReal(sharpes) - sharpes[y];
    DivideMonotone(0.0, sharpes[x], rest);
    DivideMonotone(sharpes[x], rest, rest);
    SelfQuotient(rest);
  }

  /** One strategy at the cap, another over it by an excess or more. */
  predicate SwingsAt(w: seq<real>, sharpes: seq<real>, cap: real, x: nat, y: nat, excess: real) {
    |w| == |sharpes| && x < |w| && y < |w| && x != y && sharpes[x] > 0.0 && sharpes[y] > 0.0 &&
    w[x] == cap && w[y] >= cap + excess
  }

  /** A pass hands the strategy at the cap its part of the excess or more, and puts the other one at the cap. */
  lemma {:induction false} SwingPass(w: seq<real>, sharpes: seq<real>, cap: real, x: nat, y: nat, excess: real)
    requires NonNegative(sharpes) && SwingsAt(w, sharpes, cap, x, y, excess) && excess > EPS
    ensures CountIf(Not(OverCap(w, cap))) > 0 && SumReal(sharpes) != sharpes[y]
    ensures SwingsAt(CapPass(w, sharpes, cap), sharpes, cap, y, x, Passed(excess, PartOf(sharpes, x, y)))
  {
    hide SumIf, SumReal, CountIf, CapGain, Excess;
    var over := OverCap(w, cap);
    var free := Not(over);
    SomeMarked(free, x);
    PartRange(sharpes, x, y);
    SumIfNonNegative(sharpes, free);
    SumIfNonNegative(sharpes, over);
    SumIfSplits(sharpes, over);
    ExcessAtLeast(w, cap, y);
    ShareAt(w, sharpes, cap, x);
    MoreOfMore(sharpes[x], excess, Excess(w, cap), SumIf(sharpes, free), SumReal(sharpes) - sharpes[y]);
  }

  lemma {:induction false} ExcessAtLeast(w: seq<real>, cap: real, y: nat)
    requires y < |w| && w[y] > cap + EPS
    ensures Excess(w, cap) >= w[y] - cap
  {
    hide SumIf;
    SumIfNonNegative(Minus(w, cap), OverCap(w, cap));
  }

  lemma {:induction false} MoreOfMore(share: real, less: real, more: real, small: real, large: real)
    requires share >= 0.0 && 0.0 <= less <= more && 0.0 < small <= large
    ensures less * (share / large) <= more * (share / small)
  {
    var p, q := share / large, share / small;
    assert q * small == share;
    DivideMonotone(0.0, share, small);
    DivideMonotone(0.0, share, large);
    TimesMonotone(small, large, q);
    DivideMonotone(share, q * large, large);
    assert q * large / large == q;
    ProductsCompare(less, more, p, q);
  }

  lemma {:induction false} SwingSides(w: seq<real>, sharpes: seq<real>, cap: real, x: nat, y: nat, excess: real)
    requires NonNegative(sharpes) && SwingsAt(w, sharpes, cap, x, y, excess)
    ensures |w| == |sharpes| && x < |w| && y < |w|
    ensures SumReal(sharpes) > sharpes[x] && 0.0 <= PartOf(sharpes, y, x) <= 1.0
    ensures SumReal(sharpes) > sharpes[y] && 0.0 <= PartOf(sharpes, x, y) <= 1.0
    ensures excess > EPS ==> !CapSettled(w, cap)
  {
    hide SumReal, CountIf, PartOf;
    PartRange(sharpes, x, y);
    PartRange(sharpes, y, x);
    if excess > EPS {
      SomeMarked(OverCap(w, cap), y);
    }
  }

  /** As long as the bound on the excess is over the tolerance, the cap phase does not settle. */
  lemma {:induction false} SwingLasts(
    w: seq<real>, sharpes: seq<real>, cap: real, x: nat, y: nat, excess: real, passes: nat)
    requires NonNegative(sharpes) && SwingsAt(w, sharpes, cap, x, y, excess) && excess >= 0.0
    requires SumReal(sharpes) != sharpes[x] && SumReal(sharpes) != sharpes[y]
    requires LastExcess(excess, PartOf(sharpes, x, y), PartOf(sharpes, y, x), passes) > EPS
    ensures !CapSettled(CapLoop(w, sharpes, cap, passes), cap)
    decreases passes
  {
    hide SumReal, CountIf, CapPass, PartOf, NonNegative, Passed, SwingsAt, OverCap, Not, CapLoop, CapSettled,
      LastExcess;
    SwingSides(w, sharpes, cap, x, y, excess);
    var part, next := PartOf(sharpes, x, y), PartOf(sharpes, y, x);
    LastExcessShrinks(excess, part, next, passes);
    if passes == 0 {
      NoPasses(w, sharpes, cap);
    } else {
      SwingPass(w, sharpes, cap, x, y, excess);
      UnsettledGoesOn(w, sharpes, cap, passes);
      OnePassLess(excess, part, next, passes);
      PassedRange(excess, part);
      SwingLasts(CapPass(w, sharpes, cap), sharpes, cap, y, x, Passed(excess, part), passes - 1);
    }
  }

  /** Nobody else can come over the cap, whatever part of the excess goes to them. */
  predicate OnlyTwoSwing(w: seq<real>, cap: real, x: nat, y: nat, excess: real) {
    x < |w| && y < |w| && w[y] == cap + excess &&
    forall l :: 0 <= l < |w| && l != x && l != y ==> w[l] + excess <= cap + EPS
  }

  lemma {:induction false} OnlyTwoPass(w: seq<real>, sharpes: seq<real>, cap: real, x: nat, y: nat, excess: real)
    requires NonNegative(sharpes) && SwingsAt(w, sharpes, cap, x, y, excess) && excess > EPS
    requires OnlyTwoSwing(w, cap, x, y, excess)
    ensures CountIf(Not(OverCap(w, cap))) > 0 && SumReal(sharpes) != sharpes[y]
    ensures OnlyTwoSwing(CapPass(w, sharpes, cap), cap, y, x, Passed(excess, PartOf(sharpes, x, y)))
  {
    hide SumIf, SumReal, CountIf, CapGain, Excess, PartOf, Passed;
    var over := OverCap(w, cap);
    var free := Not(over);
    SomeMarked(free, x);
    PartRange(sharpes, x, y);
    var r := Passed(excess, PartOf(sharpes, x, y));
    SingleExcess(w, sharpes, cap, y);
    forall l | 0 <= l < |w| && l != y ensures CapGain(w, sharpes, cap)[l] == Passed(excess, PartOf(sharpes, l, y)) {
      GainOfSingle(w, sharpes, cap, y, l);
    }
    var after := CapPass(w, sharpes, cap);
    forall l | 0 <= l < |w| && l != x && l != y ensures after[l] + r <= cap + EPS {
      TwoParts(sharpes, x, l, y);
      OnePartEach(excess, PartOf(sharpes, x, y), PartOf(sharpes, l, y));
    }
  }

  lemma {:induction false} OnePartEach(excess: real, a: real, b: real)
    requires excess >= 0.0 && a + b <= 1.0
    ensures Passed(excess, a) + Passed(excess, b) <= excess
  {
    TimesMonotone(a + b, 1.0, excess);
  }

  lemma {:induction false} SingleExcess(w: seq<real>, sharpes: seq<real>, cap: real, y: nat)
    requires |w| == |sharpes| && y < |w|
    requires forall l :: 0 <= l < |w| ==> (w[l] > cap + EPS <==> l == y)
    ensures Excess(w, cap) == w[y] - cap
    ensures SumIf(sharpes, Not(OverCap(w, cap))) == SumReal(sharpes) - sharpes[y]
  {
    hide SumIf, SumReal;
    SumIfSingle(Minus(w, cap), OverCap(w, cap), y);
    SumIfSingle(sharpes, OverCap(w, cap), y);
    SumIfSplits(sharpes, OverCap(w, cap));
  }

  lemma {:induction false} GainOfSingle(w: seq<real>, sharpes: seq<real>, cap: real, y: nat, l: nat)
    requires |w| == |sharpes| && y < |w| && l < |w| && l != y
    requires forall k :: 0 <= k < |w| ==> (w[k] > cap + EPS <==> k == y)
    requires SumReal(sharpes) - sharpes[y] > 0.0
    ensures CountIf(Not(OverCap(w, cap))) > 0
    ensures CapGain(w, sharpes, cap)[l] == Passed(w[y] - cap, PartOf(sharpes, l, y))
  {
    hide SumIf, SumReal, CountIf, CapGain, Excess;
    SomeMarked(Not(OverCap(w, cap)), l);
    SingleExcess(w, sharpes, cap, y);
    ShareAt(w, sharpes, cap, l);
  }

  lemma {:induction false} TwoParts(sharpes: seq<real>, x: nat, l: nat, y: nat)
    requires NonNegative(sharpes) && x < |sharpes| && l < |sharpes| && y < |sharpes|
    requires x != y && l != y && x != l && SumReal(sharpes) - sharpes[y] > 0.0
    ensures PartOf(sharpes, x, y) + PartOf(sharpes, l, y) <= 1.0
  {
    hide SumReal, SumIf;
    var rest := SumReal(sharpes) - sharpes[y];
    var others := All(|sharpes|)[y := false];
    SumIfTwo(sharpes, others, x, l);
    SumIfSplits(sharpes, others);
    SumIfSingle(sharpes, Not(others), y);
    OverStep(sharpes[x], sharpes[l], rest);
    DivideMonotone(sharpes[x] + sharpes[l], rest, rest);
    SelfQuotient(rest);
  }

  lemma {:induction false} SwingEnds(w: seq<real>, sharpes: seq<real>, cap: real, x: nat, y: nat, excess: real)
    requires SwingsAt(w, sharpes, cap, x, y, excess) && OnlyTwoSwing(w, cap, x, y, excess) && 0.0 <= excess <= EPS
    ensures CapSettled(w, cap)
  {
    hide CountIf;
    NoneMarked(OverCap(w, cap));
  }

  lemma {:induction false} SettledStays(w: seq<real>, sharpes: seq<real>, cap: real, passes: nat)
    requires |w| == |sharpes| && CapSettled(w, cap)
    ensures CapLoop(w, sharpes, cap, passes) == w
  {
  }

  lemma {:induction false} NoPasses(w: seq<real>, sharpes: seq<real>, cap: real)
    requires |w| == |sharpes|
    ensures CapLoop(w, sharpes, cap, 0) == w
  {
  }

  lemma {:induction false} UnsettledGoesOn(w: seq<real>, sharpes: seq<real>, cap: real, passes: nat)
    requires |w| == |sharpes| && !CapSettled(w, cap) && CountIf(Not(OverCap(w, cap))) > 0 && passes > 0
    ensures CapLoop(w, sharpes, cap, passes) == CapLoop(CapPass(w, sharpes, cap), sharpes, cap, passes - 1)
  {
  }

  lemma {:induction false} NothingPassed(excess: real, part: real, next: real)
    ensures LastExcess(excess, part, next, 0) == excess
  {
  }

  /** If only two strategies swing, the cap phase settles exactly if the excess comes down to the tolerance. */
  lemma {:induction false} SwingDecides(
    w: seq<real>, sharpes: seq<real>, cap: real, x: nat, y: nat, excess: real, passes: nat)
    requires NonNegative(sharpes) && SwingsAt(w, sharpes, cap, x, y, excess) && excess >= 0.0
    requires OnlyTwoSwing(w, cap, x, y, excess)
    requires SumReal(sharpes) != sharpes[x] && SumReal(sharpes) != sharpes[y]
    ensures CapSettled(CapLoop(w, sharpes, cap, passes), cap)
       <==> LastExcess(excess, PartOf(sharpes, x, y), PartOf(sharpes, y, x), passes) <= EPS
    decreases passes
  {
    hide SumReal, CountIf, CapPass, PartOf, NonNegative, Passed, SwingsAt, OnlyTwoSwing, OverCap, Not, CapLoop,
      CapSettled, LastExcess;
    SwingSides(w, sharpes, cap, x, y, excess);
    var part, next := PartOf(sharpes, x, y), PartOf(sharpes, y, x);
    LastExcessShrinks(excess, part, next, passes);
    if excess <= EPS {
      SwingEnds(w, sharpes, cap, x, y, excess);
      SettledStays(w, sharpes, cap, passes);
    } else if passes == 0 {
      NoPasses(w, sharpes, cap);
      NothingPassed(excess, part, next);
    } else {
      SwingPass(w, sharpes, cap, x, y, excess);
      OnlyTwoPass(w, sharpes, cap, x, y, excess);
      UnsettledGoesOn(w, sharpes, cap, passes);
      OnePassLess(excess, part, next, passes);
      PassedRange(excess, part);
      SwingDecides(CapPass(w, sharpes, cap), sharpes, cap, y, x, Passed(excess, part), passes - 1);
    }
  }

  lemma {:induction false} NoneMarked(mask: seq<bool>)
    requires forall i :: 0 <= i < |mask| ==> !mask[i]
    ensures CountIf(mask) == 0
  {
  }

  // ---------------------------------------------------------------- what the swing means for the weights

  /** The shares leave the floor nothing to lift. */
  ghost predicate NothingToLift(sharpes: seq<real>, floor: real)
    requires SumReal(sharpes) != 0.0
  {
    forall l :: 0 <= l < |sharpes| ==> sharpes[l] / SumReal(sharpes) >= floor - EPS
  }

  lemma {:induction false} CapLoopKeepsFloor(
    w: seq<real>, sharpes: seq<real>, floor: real, cap: real, passes: nat)
    requires |w| == |sharpes| && NonNegative(sharpes) && floor <= cap
    requires forall l :: 0 <= l < |w| ==> w[l] >= floor - EPS
    ensures forall l :: 0 <= l < |w| ==> CapLoop(w, sharpes, cap, passes)[l] >= floor - EPS
    decreases passes
  {
    hide CountIf, SumIf, CapGain, Excess, OverCap, NonNegative;
    if !(passes == 0 || CapSettled(w, cap) || CountIf(Not(OverCap(w, cap))) == 0) {
      GainNonNegative(w, sharpes, cap);
      CapLoopKeepsFloor(CapPass(w, sharpes, cap), sharpes, floor, cap, passes - 1);
    }
  }

  /** Where the floor lifts nothing, the weights keep the cap exactly if the cap phase settled. */
  lemma {:induction false} UnliftedWeights(sharpes: seq<real>, floor: real, cap: real)
    requires NonNegative(sharpes) && SumReal(sharpes) != 0.0 && 0.0 <= floor <= cap && |sharpes| >= 2
    requires NothingToLift(sharpes, floor)
    ensures (forall l :: 0 <= l < |sharpes| ==> Weights(sharpes, floor, cap)[l] <= cap + EPS)
       <==> CapSettled(Capped(sharpes, cap), cap)
  {
    hide SumReal, CountIf, CapLoop, NonNegative, SumIf;
    var w := Capped(sharpes, cap);
    CapLoopKeepsFloor(Over(sharpes, SumReal(sharpes)), sharpes, floor, cap, PASSES);
    NoneMarked(UnderFloor(w, floor));
    assert Floored(sharpes, floor, cap) == w;
    OverOne(w);
    if CapSettled(w, cap) {
      assert forall l :: 0 <= l < |w| ==> !OverCap(w, cap)[l];
    } else {
      var l := SomeIndex(OverCap(w, cap));
      assert Weights(sharpes, floor, cap)[l] > cap + EPS;
    }
  }

  /** Strategy i starts over the cap and j does not. */
  ghost predicate StartsApart(sharpes: seq<real>, cap: real, i: nat, j: nat)
    requires SumReal(sharpes) != 0.0
  {
    i < |sharpes| && j < |sharpes| && sharpes[i] > 0.0 && sharpes[j] > 0.0 &&
    sharpes[i] / SumReal(sharpes) > cap + EPS && sharpes[j] / SumReal(sharpes) <= cap + EPS
  }

  /** What the swing between i and j leaves of the second excess after the passes that remain. */
  ghost function SwingLeft(sharpes: seq<real>, cap: real, i: nat, j: nat): real
    requires NonNegative(sharpes) && SumReal(sharpes) != 0.0 && StartsApart(sharpes, cap, i, j)
  {
    PartRange(sharpes, i, j);
    PartRange(sharpes, j, i);
    StartsFree(sharpes, cap, i, j);
    LastExcess(AfterFirst(sharpes, cap, j) - cap, PartOf(sharpes, i, j), PartOf(sharpes, j, i), PASSES - 1)
  }

  lemma {:induction false} StartsFree(sharpes: seq<real>, cap: real, i: nat, j: nat)
    requires NonNegative(sharpes) && SumReal(sharpes) != 0.0 && StartsApart(sharpes, cap, i, j)
    ensures i != j
    ensures var over := OverCap(Over(sharpes, SumReal(sharpes)), cap);
            over[i] && !over[j] && 0 < CountIf(over) < |sharpes| && CountIf(Not(over)) > 0
  {
    hide SumReal, CountIf;
    var over := OverCap(Over(sharpes, SumReal(sharpes)), cap);
    SomeMarked(over, i);
    SomeMarked(Not(over), j);
    CountNot(over);
  }

  /** The state after the first pass. */
  lemma {:induction false} AfterFirstPass(sharpes: seq<real>, cap: real, i: nat, j: nat)
    requires NonNegative(sharpes) && SumReal(sharpes) != 0.0 && StartsApart(sharpes, cap, i, j)
    ensures var start := Over(sharpes, SumReal(sharpes));
            CountIf(OverCap(start, cap)) > 0 && CountIf(Not(OverCap(start, cap))) > 0 &&
            var next := CapPass(start, sharpes, cap);
            SwingsAt(next, sharpes, cap, i, j, AfterFirst(sharpes, cap, j) - cap) &&
            next[j] == AfterFirst(sharpes, cap, j) &&
            Capped(sharpes, cap) == CapLoop(next, sharpes, cap, PASSES - 1)
  {
    hide SumReal, CountIf, SumIf, CapGain, NonNegative, OverCap, Not, AfterFirst;
    StartsFree(sharpes, cap, i, j);
    FirstPassAt(sharpes, cap, j);
    var start := Over(sharpes, SumReal(sharpes));
    assert !CapSettled(start, cap);
    assert CapPass(start, sharpes, cap)[i] == cap;
  }

  /** The cap breaks if the swing between two strategies leaves more than the tolerance. */
  lemma {:induction false} CapFailsWhileSwinging(sharpes: seq<real>, floor: real, cap: real, i: nat, j: nat)
    requires NonNegative(sharpes) && SumReal(sharpes) != 0.0 && 0.0 <= floor <= cap
    requires NothingToLift(sharpes, floor) && StartsApart(sharpes, cap, i, j)
    requires AfterFirst(sharpes, cap, j) >= cap && SwingLeft(sharpes, cap, i, j) > EPS
    ensures exists l :: 0 <= l < |sharpes| && Weights(sharpes, floor, cap)[l] > cap + EPS
  {
    hide SumReal, CapLoop, CapPass, NonNegative, AfterFirst, NothingToLift, Weights, SwingsAt;
    PartRange(sharpes, i, j);
    PartRange(sharpes, j, i);
    AfterFirstPass(sharpes, cap, i, j);
    var next := CapPass(Over(sharpes, SumReal(sharpes)), sharpes, cap);
    SwingLasts(next, sharpes, cap, i, j, AfterFirst(sharpes, cap, j) - cap, PASSES - 1);
    UnliftedWeights(sharpes, floor, cap);
  }

  /** If only i starts over the cap and the rest of the excess cannot lift anyone but i and j over it, exactly then. */
  lemma {:induction false} CapHoldsIffSwingDies(sharpes: seq<real>, floor: real, cap: real, i: nat, j: nat)
    requires NonNegative(sharpes) && SumReal(sharpes) != 0.0 && 0.0 <= floor <= cap
    requires NothingToLift(sharpes, floor) && StartsApart(sharpes, cap, i, j)
    requires forall l :: 0 <= l < |sharpes| && l != i ==> sharpes[l] / SumReal(sharpes) <= cap + EPS
    requires AfterFirst(sharpes, cap, j) >= cap
    requires forall l :: 0 <= l < |sharpes| && l != i && l != j ==>
               AfterFirst(sharpes, cap, l) + (AfterFirst(sharpes, cap, j) - cap) <= cap + EPS
    ensures (forall l :: 0 <= l < |sharpes| ==> Weights(sharpes, floor, cap)[l] <= cap + EPS)
       <==> SwingLeft(sharpes, cap, i, j) <= EPS
  {
    hide SumReal, CapLoop, CapPass, NonNegative, AfterFirst, NothingToLift, Weights, SwingsAt, OverCap, Not, CountIf;
    PartRange(sharpes, i, j);
    PartRange(sharpes, j, i);
    AfterFirstPass(sharpes, cap, i, j);
    StartsFree(sharpes, cap, i, j);
    var start := Over(sharpes, SumReal(sharpes));
    var next := CapPass(start, sharpes, cap);
    forall l | 0 <= l < |sharpes| && l != i ensures next[l] == AfterFirst(sharpes, cap, l) {
      FirstPassAt(sharpes, cap, l);
    }
    SwingDecides(next, sharpes, cap, i, j, AfterFirst(sharpes, cap, j) - cap, PASSES - 1);
    UnliftedWeights(sharpes, floor, cap);
  }

  // ---------------------------------------------------------------- three strategies, decided exactly

  /** Whatever strategy the first pass takes over the cap, its swing with one that started over it dies down. */
  ghost predicate SwingsDie(sharpes: seq<real>, cap: real)
    requires NonNegative(sharpes) && SumReal(sharpes) != 0.0
  {
    forall i: nat, j: nat :: StartsApart(sharpes, cap, i, j) && AfterFirst(sharpes, cap, j) > cap + EPS ==>
      SwingLeft(sharpes, cap, i, j) <= EPS
  }

  lemma {:induction false} SumOfThree(values: seq<real>, i: nat, j: nat, l: nat)
    requires |values| == 3 && i < 3 && j < 3 && l < 3 && i != j && i != l && j != l
    ensures SumReal(values) == values[i] + values[j] + values[l]
  {
    Unroll(values[0], values[1], values[2], true, true, true);
    assert values == [values[0], values[1], values[2]];
  }

  lemma {:induction false} SomeoneFree(sharpes: seq<real>, cap: real)
    requires |sharpes| == 3 && NonNegative(sharpes) && SumReal(sharpes) != 0.0 && 3.0 * cap >= 1.0
    ensures CountIf(Not(OverCap(Over(sharpes, SumReal(sharpes)), cap))) > 0
  {
    hide SumReal, CountIf;
    var start := Over(sharpes, SumReal(sharpes));
    StartWeights(sharpes);
    SumOfThree(start, 0, 1, 2);
    var free := Not(OverCap(start, cap));
    var l := if free[0] then 0 else if free[1] then 1 else 2;
    SomeMarked(free, l);
  }

  /** After the first pass three strategies still hold everything. */
  lemma {:induction false} ThreeAfterFirst(sharpes: seq<real>, cap: real, i: nat, j: nat, l: nat)
    requires |sharpes| == 3 && NonNegative(sharpes) && SumReal(sharpes) != 0.0 && 3.0 * cap >= 1.0
    requires i < 3 && j < 3 && l < 3 && i != j && i != l && j != l
    requires var over := OverCap(Over(sharpes, SumReal(sharpes)), cap); over[i] && !over[j]
    ensures var over := OverCap(Over(sharpes, SumReal(sharpes)), cap);
            cap + AfterFirst(sharpes, cap, j) + (if over[l] then cap else AfterFirst(sharpes, cap, l)) == 1.0
  {
    hide SumReal, CountIf, CapGain, AfterFirst, NonNegative;
    var start := Over(sharpes, SumReal(sharpes));
    var over := OverCap(start, cap);
    SomeMarked(over, i);
    SomeMarked(Not(over), j);
    CountNot(over);
    StartWeights(sharpes);
    CapPassConserves(start, sharpes, cap);
    SumOfThree(CapPass(start, sharpes, cap), i, j, l);
    FirstPassAt(sharpes, cap, j);
    if !over[l] {
      FirstPassAt(sharpes, cap, l);
    }
  }

  /** A strategy without a Sharpe is not taken over the cap. */
  lemma {:induction false} OnlySharpeSwings(sharpes: seq<real>, cap: real, i: nat, j: nat, l: nat)
    requires |sharpes| == 3 && NonNegative(sharpes) && SumReal(sharpes) != 0.0 && 3.0 * cap >= 1.0
    requires i < 3 && j < 3 && l < 3 && i != j && i != l && j != l
    requires var over := OverCap(Over(sharpes, SumReal(sharpes)), cap); over[i] && !over[j] && !over[l]
    requires AfterFirst(sharpes, cap, j) > cap + EPS
    ensures sharpes[i] > 0.0 && sharpes[j] > 0.0
  {
    hide SumReal, CountIf, SumIf;
    var total := SumReal(sharpes);
    var free := Not(OverCap(Over(sharpes, total), cap));
    TotalNonNegative(sharpes);
    ThreeAfterFirst(sharpes, cap, i, j, l);
    SumIfNonNegative(sharpes, free);
    assert SumIf(sharpes, free) > 0.0;
    ShareOfNothing(sharpes[i], total);
  }

  lemma {:induction false} ShareOfNothing(sharpe: real, total: real)
    requires sharpe >= 0.0 && total > 0.0
    ensures sharpe / total > 0.0 ==> sharpe > 0.0
  {
  }

  /** Where one redistribution does not suffice, exactly two of three strategies swing. */
  lemma {:induction false} TwoOfThree(sharpes: seq<real>, cap: real) returns (i: nat, j: nat)
    requires |sharpes| == 3 && NonNegative(sharpes) && SumReal(sharpes) != 0.0 && 3.0 * cap >= 1.0
    requires !FirstPassFits(sharpes, cap)
    ensures StartsApart(sharpes, cap, i, j) && AfterFirst(sharpes, cap, j) > cap + EPS
    ensures forall l :: 0 <= l < |sharpes| && l != i ==> sharpes[l] / SumReal(sharpes) <= cap + EPS
    ensures forall l :: 0 <= l < |sharpes| && l != i && l != j ==>
              AfterFirst(sharpes, cap, l) + (AfterFirst(sharpes, cap, j) - cap) <= cap + EPS
  {
    hide SumReal, CountIf, AfterFirst, NonNegative;
    var over := OverCap(Over(sharpes, SumReal(sharpes)), cap);
    SomeoneFree(sharpes, cap);
    i := SomeIndex(over);
    j :| 0 <= j < |sharpes| && Not(over)[j] && AfterFirst(sharpes, cap, j) > cap + EPS;
    var l := 3 - i - j;
    ThreeAfterFirst(sharpes, cap, i, j, l);
    assert !over[l];
    OnlySharpeSwings(sharpes, cap, i, j, l);
  }

  /** For any number of strategies, a cap that holds has no swing that lasts. */
  lemma {:induction false} HeldCapHasNoSwing(sharpes: seq<real>, floor: real, cap: real)
    requires NonNegative(sharpes) && SumReal(sharpes) != 0.0 && 0.0 <= floor <= cap && NothingToLift(sharpes, floor)
    requires forall l :: 0 <= l < |sharpes| ==> Weights(sharpes, floor, cap)[l] <= cap + EPS
    ensures SwingsDie(sharpes, cap)
  {
    hide SumReal, Weights, NonNegative, NothingToLift, AfterFirst, SwingLeft;
    forall i: nat, j: nat | StartsApart(sharpes, cap, i, j) && AfterFirst(sharpes, cap, j) > cap + EPS
      ensures SwingLeft(sharpes, cap, i, j) <= EPS
    {
      if SwingLeft(sharpes, cap, i, j) > EPS {
        CapFailsWhileSwinging(sharpes, floor, cap, i, j);
      }
    }
  }

  /** For three strategies under a feasible cap it holds exactly if no swing lasts. */
  lemma {:induction false} ThreeStrategiesCap(sharpes: seq<real>, floor: real, cap: real)
    requires |sharpes| == 3 && NonNegative(sharpes) && SumReal(sharpes) != 0.0
    requires 0.0 <= floor <= cap && 3.0 * cap >= 1.0 && NothingToLift(sharpes, floor)
    ensures (forall l :: 0 <= l < |sharpes| ==> Weights(sharpes, floor, cap)[l] <= cap + EPS)
       <==> SwingsDie(sharpes, cap)
  {
    hide SumReal, Weights, NonNegative, NothingToLift, AfterFirst, FirstPassFits, StartsApart, SwingLeft;
    if FirstPassFits(sharpes, cap) {
      forall l | 0 <= l < |sharpes| ensures Weights(sharpes, floor, cap)[l] <= cap + EPS {
        CapHoldsIfFirstPassFits(sharpes, floor, cap, l);
      }
      HeldCapHasNoSwing(sharpes, floor, cap);
    } else {
      var i, j := TwoOfThree(sharpes, cap);
      CapHoldsIffSwingDies(sharpes, floor, cap, i, j);
      if SwingLeft(sharpes, cap, i, j) <= EPS {
        HeldCapHasNoSwing(sharpes, floor, cap);
      }
    }
  }
}
