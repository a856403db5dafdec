/** The entry half of evaluate_cycle (core/engine.py): candidates, their ranking, and the greedy selection. */
module EngineEntries {
  import opened Collections
  import opened Numbers
  import opened Domain
  import opened EngineTypes
  import opened OptionLedger
  import opened Sorting
  import Sizing

  // ---------------------------------------------------------------- gates

  function CloseSum(bars: seq<Bar>): real {
    if bars == [] then 0.0 else CloseSum(bars[..|bars| - 1]) + bars[|bars| - 1].close
  }

  /** The regime filter blocks while the last completed bar closes at or below the average. */
  predicate RegimeBlocked(s: Settings, regime: Option<seq<Bar>>)
    requires s.Valid()
  {
    && s.enableRegime
    && regime.Some?
    && |regime.value| >= s.regimePeriod + 1
    && var window := regime.value[|regime.value| - s.regimePeriod - 1..|regime.value| - 1];
       window[|window| - 1].close <= CloseSum(window) / |window| as real
  }

  predicate ContextBlocked(s: Settings, context: Option<MarketContext>) {
    && context.Some?
    && ((s.enableVix && context.value.vixAboveSma == Some(true))
        || (s.enableSector && context.value.sectorPassingPct.Some? &&
           context.value.sectorPassingPct.value < s.sectorMinPassingPct))
  }

  function AvailableSlots(s: Settings, openCount: nat): nat {
    if s.maxOpenPositions > openCount then s.maxOpenPositions - openCount else 0
  }

  // ---------------------------------------------------------------- candidates

  datatype Candidate = Candidate(fillable: int, closeToEntry: real, relativeVolume: real, intent: Intent)

  /** A symbol is passed over, offered, or its evaluation raises an error that ends the cycle. */
  datatype Screening = Skipped | Offer(candidate: Candidate) | Raised

  /** The entry would only execute at or after the day's flatten time. */
  predicate ExecutesAfterFlatten(s: Settings, cal: Calendar, signalTimestamp: int) {
    cal.inEntryWindow(signalTimestamp) && signalTimestamp + s.timeframe >= cal.flattenAt(cal.day(signalTimestamp))
  }

  function MaxInt(a: int, b: int): int { if a >= b then a else b }

  function SessionThrough(bars: seq<Bar>, cal: Calendar): seq<Bar>
    requires bars != []
  {
    if |bars| == 1 || cal.day(bars[|bars| - 2].timestamp) != cal.day(bars[|bars| - 1].timestamp) then [bars[|bars| - 1]]
    else SessionThrough(bars[..|bars| - 1], cal) + [bars[|bars| - 1]]
  }

  /** The checks before the signal evaluator is asked. */
  predicate Eligible(s: Settings, cal: Calendar, cycle: CycleInput, symbol: Symbol) {
    var bars, daily := cycle.BarsOf(symbol), cycle.DailyOf(symbol);
    && !cycle.Holds(symbol)
    && symbol !in cycle.working
    && bars != []
    && daily != []
    && var latest := bars[|bars| - 1];
       && (symbol, cal.day(latest.timestamp)) !in cycle.traded
       && cycle.now - latest.timestamp <= 2 * s.timeframe
       && MaxInt(0, (cycle.now - daily[|daily| - 1].timestamp) / DAY_LENGTH) <= s.dailyBarMaxAgeDays
       && !ExecutesAfterFlatten(s, cal, latest.timestamp)
  }

  function CloseRatio(price: real, level: real): real
    requires level != 0.0
  {
    Round(price / level - 1.0, MICRO)
  }

  /** The entry-quality checks on a signal. */
  predicate SignalAcceptable(s: Settings, cal: Calendar, ind: Indicators, now: int, bars: seq<Bar>, signal: Signal)
    requires bars != []
  {
    && cal.day(signal.bar.timestamp) >= cal.day(now)
    && (signal.entryLevel > 0.0 ==>
          s.minCloseToEntry <= CloseRatio(signal.bar.close, signal.entryLevel) <= s.maxCloseToEntry
          || (s.minCloseToEntry <= -1.0 && s.maxCloseToEntry >= 1.0))
    && !(signal.contract.None? && signal.limitPrice > 0.0 && signal.bar.close > signal.limitPrice)
    && (s.enableVwapEntry ==>
          var vwap := ind.vwap(SessionThrough(bars, cal));
          !(vwap.Some? && signal.bar.close < vwap.value))
  }

  /** calculate_option_position_size: whole contracts within the risk budget and the notional cap. */
  function OptionContracts(equity: real, ask: real, limits: Sizing.Limits): nat {
    if ask <= 0.0 then 0
    else
      var cost := ask * 100.0;
      var byRisk, byNotional := Floor(equity * limits.riskPct / cost), Floor(equity * limits.maxPositionPct / cost);
      var contracts := if byRisk <= byNotional then byRisk else byNotional;
      if contracts > 0 then contracts else 0
  }

  function OptionCandidate(s: Settings, equity: real, symbol: Symbol, strategy: Strategy, signal: Signal): Screening
    requires signal.contract.Some?
  {
    var contract := signal.contract.value;
    var contracts := OptionContracts(equity, contract.ask, s.limits);
    if contracts < 1 then Skipped
    else if signal.entryLevel == 0.0 then Raised
    else Offer(Candidate(1, CloseRatio(signal.bar.close, signal.entryLevel), Round(signal.relativeVolume, MICRO),
      Entry(contract.occSymbol, signal.bar.timestamp, contracts as real, None, contract.ask, None, strategy,
        Some(symbol))))
  }

  /** The lowest initial stop allowed under a limit price. */
  function FarthestStop(s: Settings, limit: real): real {
    Round(limit * (1.0 - s.maxStopPct), CENT)
  }

  function EquityCandidate(s: Settings, equity: real, symbol: Symbol, strategy: Strategy, signal: Signal): Screening {
    if signal.initialStopPrice >= signal.limitPrice || signal.limitPrice - signal.initialStopPrice < 0.01 then Skipped
    else
      var initialStop := Max(signal.initialStopPrice, FarthestStop(s, signal.limitPrice));
      var size := Sizing.PositionSize(equity, signal.limitPrice, initialStop, s.limits, symbol in s.fractionable);
      if size.Failure? then Raised
      else if size.value <= 0.0 then Skipped
      else if s.minPositionNotional > 0.0 && size.value * signal.limitPrice < s.minPositionNotional then Skipped
      else if signal.entryLevel == 0.0 then Raised
      else Offer(Candidate(1, CloseRatio(signal.bar.close, signal.entryLevel), Round(signal.relativeVolume, MICRO),
        Entry(symbol, signal.bar.timestamp, size.value, Some(signal.stopPrice), signal.limitPrice, Some(initialStop),
          strategy, None)))
  }

  /** A share entry on offer respects all three limits at its own limit and stop, and no stop is too far away. */
  lemma {:induction false} OfferedEntryWithinLimits(
    s: Settings, equity: real, symbol: Symbol, strategy: Strategy, signal: Signal)
    requires s.limits.Valid()
    ensures var r := EquityCandidate(s, equity, symbol, strategy, signal);
            r.Offer? ==>
              var e := r.candidate.intent;
              && e.Entry? && e.symbol == symbol && e.strategy == strategy && e.timestamp == signal.bar.timestamp
              && e.initialStop.Some? && e.initialStop.value < e.limit
              && e.initialStop.value >= signal.initialStopPrice
              && e.initialStop.value >= FarthestStop(s, e.limit)
              && equity > 0.0 && e.quantity >= Sizing.Unit(symbol in s.fractionable)
              && Sizing.Fits(
                   e.quantity - Sizing.Allowance(symbol in s.fractionable),
                   equity, e.limit, e.initialStop.value, s.limits)
              && (s.minPositionNotional > 0.0 ==> e.quantity * e.limit >= s.minPositionNotional)
  {
    hide FarthestStop, CloseRatio, Sizing.Fits, Sizing.ExactQuantity, Sizing.FloorFractional;
    var initialStop := Max(signal.initialStopPrice, FarthestStop(s, signal.limitPrice));
    Sizing.PositiveSizeFits(equity, signal.limitPrice, initialStop, s.limits, symbol in s.fractionable);
  }

  function Screen(
    s: Settings, cal: Calendar, ind: Indicators, evaluator: Evaluator, strategy: Strategy, cycle: CycleInput,
    symbol: Symbol): Screening
  {
    if !Eligible(s, cal, cycle, symbol) then Skipped
    else
      var bars := cycle.BarsOf(symbol);
      var signal := evaluator(symbol, bars, cycle.DailyOf(symbol), cycle.ChainsOf(symbol));
      if signal.None? || !SignalAcceptable(s, cal, ind, cycle.now, bars, signal.value) then Skipped
      else if signal.value.contract.Some? then OptionCandidate(s, cycle.equity, symbol, strategy, signal.value)
      else EquityCandidate(s, cycle.equity, symbol, strategy, signal.value)
  }

  /** The candidates of the first n symbols, unless one of them raises. */
  function Candidates(
    s: Settings, cal: Calendar, ind: Indicators, evaluator: Evaluator, strategy: Strategy, cycle: CycleInput,
    n: nat): Result<seq<Candidate>>
    requires n <= |cycle.symbols|
  {
    if n == 0 then Success([])
    else
      var before := Candidates(s, cal, ind, evaluator, strategy, cycle, n - 1);
      if before.Failure? then Failure
      else
        match Screen(s, cal, ind, evaluator, strategy, cycle, cycle.symbols[n - 1])
        case Skipped => before
        case Offer(c) => Success(before.value + [c])
        case Raised => Failure
  }

  // ---------------------------------------------------------------- ranking

  predicate CloseBefore(a: Candidate, b: Candidate) {
    || a.fillable > b.fillable
    || (a.fillable == b.fillable &&
        (|| a.closeToEntry > b.closeToEntry
         || (a.closeToEntry == b.closeToEntry &&
             (a.relativeVolume > b.relativeVolume
              || (a.relativeVolume == b.relativeVolume && Less(a.intent.symbol, b.intent.symbol))))))
  }

  predicate VolumeBefore(a: Candidate, b: Candidate) {
    || a.fillable > b.fillable
    || (a.fillable == b.fillable &&
        (|| a.relativeVolume > b.relativeVolume
         || (a.relativeVolume == b.relativeVolume &&
             (a.closeToEntry > b.closeToEntry
              || (a.closeToEntry == b.closeToEntry && Less(a.intent.symbol, b.intent.symbol))))))
  }

  /** The position of a symbol in a ranked list. */
  function RankOf(order: seq<Candidate>, symbol: Symbol): (rank: nat)
    ensures rank <= |order|
    ensures rank < |order| ==> order[rank].intent.symbol == symbol
    ensures forall i :: 0 <= i < rank ==> order[i].intent.symbol != symbol
  {
    if order == [] || order[0].intent.symbol == symbol then 0 else RankOf(order[1..], symbol) + 1
  }

  datatype BalancedKey = BalancedKey(fillable: int, worse: int, total: int, close: int, volume: int, symbol: Symbol)

  function KeyOf(byClose: seq<Candidate>, byVolume: seq<Candidate>, c: Candidate): BalancedKey {
    var close, volume := RankOf(byClose, c.intent.symbol), RankOf(byVolume, c.intent.symbol);
    BalancedKey(c.fillable, MaxInt(close, volume), close + volume, close, volume, c.intent.symbol)
  }

  predicate KeyBefore(a: BalancedKey, b: BalancedKey) {
    if a.fillable != b.fillable then a.fillable > b.fillable
    else if a.worse != b.worse then a.worse < b.worse
    else if a.total != b.total then a.total < b.total
    else if a.close != b.close then a.close < b.close
    else if a.volume != b.volume then a.volume < b.volume
    else Less(a.symbol, b.symbol)
  }

  /** _rank_entry_candidates. */
  function Rank(candidates: seq<Candidate>, mode: RankMode): (r: seq<Candidate>)
    ensures |r| == |candidates|
    ensures forall c :: c in r <==> c in candidates
  {
    match mode
    case CloseToEntry => SortBy(candidates, CloseBefore)
    case RelativeVolume => SortBy(candidates, VolumeBefore)
    case Balanced =>
      var byClose, byVolume := SortBy(candidates, CloseBefore), SortBy(candidates, VolumeBefore);
      SortBy(candidates, (a, b) => KeyBefore(KeyOf(byClose, byVolume, a), KeyOf(byClose, byVolume, b)))
  }

  ghost predicate SymbolsDistinct(candidates: seq<Candidate>) {
    forall i, j :: 0 <= i < j < |candidates| ==> candidates[i].intent.symbol != candidates[j].intent.symbol
  }

  lemma {:induction false} DistinctMembers(candidates: seq<Candidate>)
    requires SymbolsDistinct(candidates)
    ensures Distinct(candidates)
    ensures forall a, b :: a in candidates && b in candidates && a.intent.symbol == b.intent.symbol ==> a == b
  {
    forall a, b | a in candidates && b in candidates && a.intent.symbol == b.intent.symbol ensures a == b {
      var i :| 0 <= i < |candidates| && candidates[i] == a;
      var j :| 0 <= j < |candidates| && candidates[j] == b;
    }
  }

  lemma {:induction false} CloseOrderStrict(candidates: seq<Candidate>)
    requires SymbolsDistinct(candidates)
    ensures StrictOrder(candidates, CloseBefore)
  {
    DistinctMembers(candidates);
    forall a, b | a in candidates && b in candidates
      ensures CloseBefore(a, b) ==> !CloseBefore(b, a)
      ensures a != b ==> CloseBefore(a, b) || CloseBefore(b, a)
    {
      LessAsymmetric(a.intent.symbol, b.intent.symbol);
      LessTotal(a.intent.symbol, b.intent.symbol);
    }
    forall a, b, c | CloseBefore(a, b) && CloseBefore(b, c) ensures CloseBefore(a, c) {
      if Less(a.intent.symbol, b.intent.symbol) && Less(b.intent.symbol, c.intent.symbol) {
        LessTransitive(a.intent.symbol, b.intent.symbol, c.intent.symbol);
      }
    }
  }

  lemma {:induction false} VolumeOrderStrict(candidates: seq<Candidate>)
    requires SymbolsDistinct(candidates)
    ensures StrictOrder(candidates, VolumeBefore)
  {
    DistinctMembers(candidates);
    forall a, b | a in candidates && b in candidates
      ensures VolumeBefore(a, b) ==> !VolumeBefore(b, a)
      ensures a != b ==> VolumeBefore(a, b) || VolumeBefore(b, a)
    {
      LessAsymmetric(a.intent.symbol, b.intent.symbol);
      LessTotal(a.intent.symbol, b.intent.symbol);
    }
    forall a, b, c | VolumeBefore(a, b) && VolumeBefore(b, c) ensures VolumeBefore(a, c) {
      if Less(a.intent.symbol, b.intent.symbol) && Less(b.intent.symbol, c.intent.symbol) {
        LessTransitive(a.intent.symbol, b.intent.symbol, c.intent.symbol);
      }
    }
  }

  lemma {:induction false} KeyOrder(a: BalancedKey, b: BalancedKey, c: BalancedKey)
    ensures KeyBefore(a, b) ==> !KeyBefore(b, a)
    ensures KeyBefore(a, b) && KeyBefore(b, c) ==> KeyBefore(a, c)
    ensures a.symbol != b.symbol ==> KeyBefore(a, b) || KeyBefore(b, a)
  {
    LessAsymmetric(a.symbol, b.symbol);
    LessTotal(a.symbol, b.symbol);
    if Less(a.symbol, b.symbol) && Less(b.symbol, c.symbol) {
      LessTransitive(a.symbol, b.symbol, c.symbol);
    }
  }

  lemma {:induction false} BalancedOrderStrict(
    candidates: seq<Candidate>, byClose: seq<Candidate>, byVolume: seq<Candidate>)
    requires SymbolsDistinct(candidates)
    ensures StrictOrder(candidates, (a, b) => KeyBefore(KeyOf(byClose, byVolume, a), KeyOf(byClose, byVolume, b)))
  {
    hide KeyBefore;
    DistinctMembers(candidates);
    forall a, b, c: Candidate
      ensures var x, y, z := KeyOf(byClose, byVolume, a), KeyOf(byClose, byVolume, b), KeyOf(byClose, byVolume, c);
              && (KeyBefore(x, y) ==> !KeyBefore(y, x))
              && (KeyBefore(x, y) && KeyBefore(y, z) ==> KeyBefore(x, z))
              && (a.intent.symbol != b.intent.symbol ==> KeyBefore(x, y) || KeyBefore(y, x))
    {
      KeyOrder(KeyOf(byClose, byVolume, a), KeyOf(byClose, byVolume, b), KeyOf(byClose, byVolume, c));
    }
  }

  /** The ranking is a permutation of the candidates. */
  lemma {:induction false} RankPermutes(candidates: seq<Candidate>, mode: RankMode)
    ensures multiset(Rank(candidates, mode)) == multiset(candidates)
  {
    SortByPermutes(candidates, CloseBefore);
    SortByPermutes(candidates, VolumeBefore);
    var byClose, byVolume := SortBy(candidates, CloseBefore), SortBy(candidates, VolumeBefore);
    SortByPermutes(candidates, (a, b) => KeyBefore(KeyOf(byClose, byVolume, a), KeyOf(byClose, byVolume, b)));
  }

  /** The ranking does not depend on the order in which candidates were found. */
  lemma {:induction false} RankIsCanonical(xs: seq<Candidate>, ys: seq<Candidate>, mode: RankMode)
    requires SymbolsDistinct(xs) && SymbolsDistinct(ys)
    requires forall c :: c in xs <==> c in ys
    ensures Rank(xs, mode) == Rank(ys, mode)
  {
    DistinctMembers(xs);
    DistinctMembers(ys);
    CloseOrderStrict(xs);
    VolumeOrderStrict(xs);
    SortIsCanonical(xs, ys, CloseBefore);
    SortIsCanonical(xs, ys, VolumeBefore);
    var byClose, byVolume := SortBy(xs, CloseBefore), SortBy(xs, VolumeBefore);
    BalancedOrderStrict(xs, byClose, byVolume);
    SortIsCanonical(xs, ys, (a, b) => KeyBefore(KeyOf(byClose, byVolume, a), KeyOf(byClose, byVolume, b)));
  }

  ghost predicate AheadIn(order: seq<Candidate>, a: Candidate, b: Candidate) {
    exists i, j :: 0 <= i < j < |order| && order[i] == a && order[j] == b
  }

  lemma {:induction false} AheadRanks(order: seq<Candidate>, a: Candidate, b: Candidate)
    requires SymbolsDistinct(order) && AheadIn(order, a, b)
    ensures RankOf(order, a.intent.symbol) < RankOf(order, b.intent.symbol)
  {
    var i, j :| 0 <= i < j < |order| && order[i] == a && order[j] == b;
    var r, q := RankOf(order, a.intent.symbol), RankOf(order, b.intent.symbol);
    assert r == i && q == j;
  }

  lemma {:induction false} SortKeepsSymbols(candidates: seq<Candidate>, before: (Candidate, Candidate) -> bool)
    requires SymbolsDistinct(candidates) && StrictOrder(candidates, before)
    ensures SymbolsDistinct(SortBy(candidates, before)) && Ordered(SortBy(candidates, before), before)
  {
    DistinctMembers(candidates);
    SortByOrders(candidates, before);
    SortedIsDistinct(candidates, before);
    var r := SortBy(candidates, before);
    forall i, j | 0 <= i < j < |r| ensures r[i].intent.symbol != r[j].intent.symbol {
      assert r[i] in candidates && r[j] in candidates && r[i] != r[j];
    }
  }

  lemma {:induction false} MemberAhead(
    order: seq<Candidate>, before: (Candidate, Candidate) -> bool, a: Candidate, b: Candidate)
    requires Ordered(order, before) && StrictOrder(order, before) && a in order && b in order && before(a, b)
    ensures AheadIn(order, a, b)
  {
    var i :| 0 <= i < |order| && order[i] == a;
    var j :| 0 <= j < |order| && order[j] == b;
  }

  /** In balanced mode, being ahead by close and by volume at equal fillability means being ahead. */
  lemma {:induction false} BalancedRespectsBoth(candidates: seq<Candidate>, a: Candidate, b: Candidate)
    requires SymbolsDistinct(candidates) && a in candidates && b in candidates
    requires a.fillable == b.fillable
    requires AheadIn(SortBy(candidates, CloseBefore), a, b) && AheadIn(SortBy(candidates, VolumeBefore), a, b)
    ensures AheadIn(Rank(candidates, Balanced), a, b)
  {
    var byClose, byVolume := SortBy(candidates, CloseBefore), SortBy(candidates, VolumeBefore);
    CloseOrderStrict(candidates);
    VolumeOrderStrict(candidates);
    SortKeepsSymbols(candidates, CloseBefore);
    SortKeepsSymbols(candidates, VolumeBefore);
    AheadRanks(byClose, a, b);
    AheadRanks(byVolume, a, b);
    hide CloseBefore, VolumeBefore, AheadIn, SymbolsDistinct;
    BalancedAhead(candidates, byClose, byVolume, a, b);
  }

  lemma {:induction false} BalancedAhead(
    candidates: seq<Candidate>, byClose: seq<Candidate>, byVolume: seq<Candidate>, a: Candidate, b: Candidate)
    requires SymbolsDistinct(candidates) && a in candidates && b in candidates && a.fillable == b.fillable
    requires RankOf(byClose, a.intent.symbol) < RankOf(byClose, b.intent.symbol)
    requires RankOf(byVolume, a.intent.symbol) < RankOf(byVolume, b.intent.symbol)
    ensures AheadIn(
      SortBy(candidates, (x, y) => KeyBefore(KeyOf(byClose, byVolume, x), KeyOf(byClose, byVolume, y))), a, b)
  {
    var before := (x, y) => KeyBefore(KeyOf(byClose, byVolume, x), KeyOf(byClose, byVolume, y));
    assert before(a, b);
    hide KeyBefore, KeyOf, AheadIn;
    BalancedOrderStrict(candidates, byClose, byVolume);
    SortKeepsSymbols(candidates, before);
    StrictOnPart(SortBy(candidates, before), candidates, before);
    MemberAhead(SortBy(candidates, before), before, a, b);
  }

  // ---------------------------------------------------------------- greedy selection

  /** An intent's share of equity at its limit; an absent limit or quantity counts as zero. */
  function Exposure(equity: real, intent: Intent): real {
    if equity > 0.0 && intent.Entry? then intent.limit * intent.quantity / equity else 0.0
  }

  function Cost(positions: seq<Position>): real {
    if positions == [] then 0.0
    else
      Cost(positions[..|positions| - 1])
      + positions[|positions| - 1].entryPrice * positions[|positions| - 1].quantity
  }

  function OpenExposure(equity: real, positions: seq<Position>): real {
    if equity > 0.0 then Cost(positions) / equity else 0.0
  }

  datatype Selection = Selection(chosen: seq<Intent>, exposure: real)

  /** The selection from the first n ranked candidates. */
  function Select(ranked: seq<Candidate>, slots: nat, cap: real, equity: real, start: real, n: nat): (r: Selection)
    requires n <= |ranked|
    ensures |r.chosen| <= slots
    ensures start <= cap ==> r.exposure <= cap
    ensures r.chosen != [] ==> r.exposure <= cap
    ensures r.exposure == start + TotalExposure(equity, r.chosen)
  {
    if n == 0 then Selection([], start)
    else
      var before, intent := Select(ranked, slots, cap, equity, start, n - 1), ranked[n - 1].intent;
      if |before.chosen| >= slots || before.exposure + Exposure(equity, intent) > cap then before
      else
        assert (before.chosen + [intent])[..|before.chosen|] == before.chosen;
        Selection(before.chosen + [intent], before.exposure + Exposure(equity, intent))
  }

  function TotalExposure(equity: real, intents: seq<Intent>): real {
    if intents == [] then 0.0
    else TotalExposure(equity, intents[..|intents| - 1]) + Exposure(equity, intents[|intents| - 1])
  }

  function SelectedFrom(s: Settings, cycle: CycleInput, candidates: seq<Candidate>, slots: nat): Selection {
    var ranked := Rank(candidates, s.rankMode);
    Select(ranked, slots, s.maxExposurePct, cycle.equity, OpenExposure(cycle.equity, cycle.positions), |ranked|)
  }

  /** Once the slots are taken nothing more is chosen, so the loop may stop. */
  lemma {:induction false} FullStays(
    ranked: seq<Candidate>, slots: nat, cap: real, equity: real, start: real, n: nat, m: nat)
    requires n <= m <= |ranked| && |Select(ranked, slots, cap, equity, start, n).chosen| == slots
    ensures Select(ranked, slots, cap, equity, start, m) == Select(ranked, slots, cap, equity, start, n)
  {
    hide Exposure, TotalExposure;
    if n < m {
      FullStays(ranked, slots, cap, equity, start, n, m - 1);
    }
  }

  method SelectGreedily(ranked: seq<Candidate>, slots: nat, cap: real, equity: real, start: real)
    returns (selection: Selection)
    ensures selection == Select(ranked, slots, cap, equity, start, |ranked|)
  {
    hide Exposure, TotalExposure;
    var selected, exposure := [], start;
    for i := 0 to |ranked|
      invariant Selection(selected, exposure) == Select(ranked, slots, cap, equity, start, i)
    {
      if |selected| >= slots {
        FullStays(ranked, slots, cap, equity, start, i, |ranked|);
        return Selection(selected, exposure);
      }
      var more := Exposure(equity, ranked[i].intent);
      if exposure + more > cap {
        continue;
      }
      selected, exposure := selected + [ranked[i].intent], exposure + more;
    }
    return Selection(selected, exposure);
  }

  ghost predicate NonNegative(ranked: seq<Candidate>, equity: real) {
    forall i :: 0 <= i < |ranked| ==> Exposure(equity, ranked[i].intent) >= 0.0
  }

  lemma {:induction false} ExposureGrows(
    ranked: seq<Candidate>, slots: nat, cap: real, equity: real, start: real, n: nat, m: nat)
    requires n <= m <= |ranked| && NonNegative(ranked, equity)
    ensures Select(ranked, slots, cap, equity, start, n).exposure
         <= Select(ranked, slots, cap, equity, start, m).exposure
    ensures Select(ranked, slots, cap, equity, start, n).chosen <= Select(ranked, slots, cap, equity, start, m).chosen
  {
    hide Exposure, TotalExposure;
    if n < m {
      ExposureGrows(ranked, slots, cap, equity, start, n, m - 1);
      assert Exposure(equity, ranked[m - 1].intent) >= 0.0;
    }
  }

  lemma {:induction false} ChosenFrom(
    ranked: seq<Candidate>, slots: nat, cap: real, equity: real, start: real, n: nat, intent: Intent)
    requires n <= |ranked| && intent in Select(ranked, slots, cap, equity, start, n).chosen
    ensures exists i :: 0 <= i < n && ranked[i].intent == intent
  {
    hide Exposure, TotalExposure;
    if intent in Select(ranked, slots, cap, equity, start, n - 1).chosen {
      ChosenFrom(ranked, slots, cap, equity, start, n - 1, intent);
      var i :| 0 <= i < n - 1 && ranked[i].intent == intent;
    } else {
      assert ranked[n - 1].intent == intent;
    }
  }

  /** While slots remain, adding any rejected candidate to the final selection would break the cap. */
  lemma {:induction false} SelectionIsMaximal(
    ranked: seq<Candidate>, slots: nat, cap: real, equity: real, start: real, k: nat)
    requires k < |ranked| && NonNegative(ranked, equity)
    ensures var r := Select(ranked, slots, cap, equity, start, |ranked|);
            |r.chosen| < slots && ranked[k].intent !in r.chosen ==>
              r.exposure + Exposure(equity, ranked[k].intent) > cap
  {
    hide Exposure, TotalExposure;
    var r := Select(ranked, slots, cap, equity, start, |ranked|);
    ExposureGrows(ranked, slots, cap, equity, start, k, |ranked|);
    ExposureGrows(ranked, slots, cap, equity, start, k + 1, |ranked|);
    var before, after := Select(ranked, slots, cap, equity, start, k), Select(ranked, slots, cap, equity, start, k + 1);
    if |r.chosen| < slots && after != before {
      assert after.chosen[|before.chosen|] == ranked[k].intent;
    }
  }

  /** A decision record says `accepted` exactly when the candidate's symbol was selected. */
  predicate Accepted(chosen: seq<Intent>, candidate: Candidate) {
    exists i :: 0 <= i < |chosen| && chosen[i].symbol == candidate.intent.symbol
  }

  ghost predicate Apart(intents: seq<Intent>) {
    forall i, j :: 0 <= i < j < |intents| ==> intents[i].symbol != intents[j].symbol
  }

  /** Accepted records and emitted entries correspond one to one. */
  lemma {:induction false} AcceptedMeansChosen(
    ranked: seq<Candidate>, slots: nat, cap: real, equity: real, start: real, k: nat)
    requires k < |ranked| && SymbolsDistinct(ranked)
    ensures var chosen := Select(ranked, slots, cap, equity, start, |ranked|).chosen;
            && (Accepted(chosen, ranked[k]) <==> ranked[k].intent in chosen)
            && (forall intent :: intent in chosen ==> exists i :: 0 <= i < |ranked| && ranked[i].intent == intent)
            && Apart(chosen)
  {
    hide Exposure, TotalExposure;
    var chosen := Select(ranked, slots, cap, equity, start, |ranked|).chosen;
    if Accepted(chosen, ranked[k]) {
      var i :| 0 <= i < |chosen| && chosen[i].symbol == ranked[k].intent.symbol;
      ChosenFrom(ranked, slots, cap, equity, start, |ranked|, chosen[i]);
      var j :| 0 <= j < |ranked| && ranked[j].intent == chosen[i];
      assert j == k;
    }
    forall intent | intent in chosen ensures exists i :: 0 <= i < |ranked| && ranked[i].intent == intent {
      ChosenFrom(ranked, slots, cap, equity, start, |ranked|, intent);
    }
    ChosenDistinct(ranked, slots, cap, equity, start, |ranked|);
  }

  lemma {:induction false} ChosenDistinct(
    ranked: seq<Candidate>, slots: nat, cap: real, equity: real, start: real, n: nat)
    requires n <= |ranked| && SymbolsDistinct(ranked)
    ensures Apart(Select(ranked, slots, cap, equity, start, n).chosen)
  {
    hide Exposure, TotalExposure;
    if n > 0 {
      ChosenDistinct(ranked, slots, cap, equity, start, n - 1);
      var before := Select(ranked, slots, cap, equity, start, n - 1).chosen;
      forall i | 0 <= i < |before| ensures before[i].symbol != ranked[n - 1].intent.symbol {
        ChosenFrom(ranked, slots, cap, equity, start, n - 1, before[i]);
        var j :| 0 <= j < n - 1 && ranked[j].intent == before[i];
      }
      var chosen := Select(ranked, slots, cap, equity, start, n).chosen;
      assert chosen == before || chosen == before + [ranked[n - 1].intent];
    }
  }

  // ---------------------------------------------------------------- the loop over the symbols

  method CollectCandidates(
    s: Settings, cal: Calendar, ind: Indicators, evaluator: Evaluator, strategy: Strategy, cycle: CycleInput)
    returns (candidates: Result<seq<Candidate>>)
    ensures candidates == Candidates(s, cal, ind, evaluator, strategy, cycle, |cycle.symbols|)
  {
    hide Screen;
    var found: seq<Candidate> := [];
    for i := 0 to |cycle.symbols|
      invariant Candidates(s, cal, ind, evaluator, strategy, cycle, i) == Success(found)
    {
      match Screen(s, cal, ind, evaluator, strategy, cycle, cycle.symbols[i]) {
        case Skipped =>
        case Offer(c) => found := found + [c];
        case Raised =>
          FailureStays(s, cal, ind, evaluator, strategy, cycle, i + 1, |cycle.symbols|);
          return Failure;
      }
    }
    return Success(found);
  }

  lemma {:induction false} FailureStays(
    s: Settings, cal: Calendar, ind: Indicators, evaluator: Evaluator, strategy: Strategy, cycle: CycleInput, n: nat,
    m: nat)
    requires n <= m <= |cycle.symbols| && Candidates(s, cal, ind, evaluator, strategy, cycle, n).Failure?
    ensures Candidates(s, cal, ind, evaluator, strategy, cycle, m).Failure?
  {
    hide Screen;
    if n < m {
      FailureStays(s, cal, ind, evaluator, strategy, cycle, n, m - 1);
    }
  }
}
