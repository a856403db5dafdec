/** The position half of evaluate_cycle (core/engine.py): exits first, then four passes that tighten stops. */
module EngineStops {
  import opened Numbers
  import opened Domain
  import opened EngineTypes
  import opened Mechanics

  // ---------------------------------------------------------------- bars of a position

  function MaxHigh(bars: seq<Bar>): real
    requires bars != []
  {
    if |bars| == 1 then bars[0].high else Max(MaxHigh(bars[..|bars| - 1]), bars[|bars| - 1].high)
  }

  function MinLow(bars: seq<Bar>): real
    requires bars != []
  {
    if |bars| == 1 then bars[0].low else Min(MinLow(bars[..|bars| - 1]), bars[|bars| - 1].low)
  }

  function BarsSince(bars: seq<Bar>, from: int): seq<Bar> {
    if bars == [] then []
    else
      var rest := BarsSince(bars[..|bars| - 1], from);
      if bars[|bars| - 1].timestamp >= from then rest + [bars[|bars| - 1]] else rest
  }

  function BarsOfDay(bars: seq<Bar>, cal: Calendar, day: Day): seq<Bar> {
    if bars == [] then []
    else
      var rest := BarsOfDay(bars[..|bars| - 1], cal, day);
      if cal.day(bars[|bars| - 1].timestamp) == day then rest + [bars[|bars| - 1]] else rest
  }

  predicate IsShort(p: Position) {
    p.quantity < 0.0
  }

  /** A written option has no stop to manage. */
  predicate IsShortOption(p: Position) {
    IsShort(p) && p.stopPrice == 0.0 && p.strategy == "short_option"
  }

  // ---------------------------------------------------------------- exits

  predicate TargetHit(s: Settings, p: Position, latest: Bar) {
    var target := ProfitTargetPrice(p, s.profitTargetR);
    if IsShort(p) then latest.low <= target else latest.high >= target
  }

  predicate NoFollowThrough(s: Settings, p: Position, bars: seq<Bar>, latest: Bar) {
    var since := BarsSince(bars, p.entryTimestamp);
    if IsShort(p) then
      var low := if since != [] then MinLow(since) else latest.low;
      var best := if p.lowestPrice > 0.0 then Min(low, p.lowestPrice) else low;
      best > p.entryPrice * (1.0 - s.noFollowThroughMinFavorable) && latest.close >= p.entryPrice
    else
      var best := Max(if since != [] then MaxHigh(since) else latest.high, p.highestPrice);
      best < p.entryPrice * (1.0 + s.noFollowThroughMinFavorable) && latest.close <= p.entryPrice
  }

  function CurrentReturn(p: Position, latest: Bar): real
    requires p.entryPrice > 0.0
  {
    (latest.close - p.entryPrice) / p.entryPrice
  }

  predicate GaveBack(s: Settings, p: Position, bars: seq<Bar>, latest: Bar)
    requires p.entryPrice > 0.0
  {
    var since := BarsSince(bars, p.entryTimestamp);
    var best := Max(if since != [] then MaxHigh(since) else latest.high, p.highestPrice);
    best >= p.entryPrice * (1.0 + s.givebackMinFavorable) && CurrentReturn(p, latest) <= s.givebackMaxReturn
  }

  predicate TrendBroken(s: Settings, ind: Indicators, p: Position, daily: seq<Bar>, now: int) {
    && |daily| >= s.trendHistory
    && |daily| > 0
    && (now - daily[|daily| - 1].timestamp) / DAY_LENGTH <= s.dailyBarMaxAgeDays
    && !(if IsShort(p) then ind.shortTrendHolds(daily) else ind.trendHolds(daily))
  }

  predicate VwapBroken(s: Settings, ind: Indicators, p: Position, today: seq<Bar>, latest: Bar) {
    && |today| >= s.vwapMinBars
    && var vwap := ind.vwap(today);
       vwap.Some? && if IsShort(p) then latest.close > vwap.value else latest.close < vwap.value
  }

  /** Why a position is closed this cycle, if it is; the first reason in the engine's order wins. */
  function ExitReason(
    s: Settings, cal: Calendar, ind: Indicators, now: int, p: Position, bars: seq<Bar>, daily: seq<Bar>): Option<string>
    requires bars != []
  {
    var latest := bars[|bars| - 1];
    var age := now - p.entryTimestamp;
    var mature := age >= s.minHold;
    if s.enableProfitTarget && !IsShortOption(p) && TargetHit(s, p, latest) then Some("profit_target")
    else if s.enableNoFollowThrough && s.noFollowThroughAfter > 0 && mature && !IsShortOption(p)
            && age >= s.noFollowThroughAfter && NoFollowThrough(s, p, bars, latest) then Some("no_follow_through")
    else if s.enableGiveback && mature && !IsShort(p) && p.entryPrice > 0.0
            && GaveBack(s, p, bars, latest) then Some("giveback_exit")
    else if s.enableEarlyLoss && s.earlyLossAfter > 0 && mature && !IsShort(p) && p.entryPrice > 0.0
            && age >= s.earlyLossAfter && CurrentReturn(p, latest) <= -s.earlyLossReturn then Some("early_loss_exit")
    else if s.enableTrendExit && mature && !IsShortOption(p) && TrendBroken(s, ind, p, daily, now) then
      Some("viability_trend_filter_failed")
    else if s.enableVwapExit && mature && !IsShortOption(p)
            && VwapBroken(s, ind, p, BarsOfDay(bars, cal, cal.day(now)), latest) then Some("viability_vwap_breakdown")
    else None
  }

  // ---------------------------------------------------------------- stop candidates

  /** The trailing stop once the profit trigger is hit. */
  function TrailCandidate(s: Settings, ind: Indicators, p: Position, latest: Bar, daily: seq<Bar>): Option<real> {
    var trigger := p.entryPrice + s.trailTriggerR * p.RiskPerShare();
    if IsShortOption(p) || (if IsShort(p) then latest.low > trigger else latest.high < trigger) then None
    else
      var atr := if s.trailAtrMultiplier > 0.0 then ind.atr(daily) else None;
      if IsShort(p) then
        var anchor := if atr.Some? then latest.low + s.trailAtrMultiplier * atr.value else latest.high;
        Some(Round(Min(Min(p.stopPrice, p.entryPrice), anchor), CENT))
      else
        var anchor := if atr.Some? then latest.high - s.trailAtrMultiplier * atr.value else latest.low;
        Some(Round(Max(Max(p.stopPrice, p.entryPrice), anchor), CENT))
  }

  /** The profit trail below today's high, or above today's low for a short. */
  function ProfitTrailCandidate(s: Settings, p: Position, today: seq<Bar>): Option<real>
    requires s.Valid()
  {
    if IsShortOption(p) || today == [] then None
    else if IsShort(p) then Some(Round(MinLow(today) / s.profitTrailPct, CENT))
    else Some(Round(MaxHigh(today) * s.profitTrailPct, CENT))
  }

  /** The breakeven stop once the position is far enough ahead. */
  function BreakevenCandidate(s: Settings, p: Position, latest: Bar): Option<real> {
    if p.entryPrice <= 0.0 || IsShortOption(p) then None
    else if IsShort(p) then
      if latest.low > p.entryPrice * (1.0 - s.breakevenTriggerPct) then None
      else
        var low := if p.lowestPrice > 0.0 then Min(p.lowestPrice, latest.low) else latest.low;
        Some(Min(p.entryPrice, Round(low * (1.0 + s.breakevenTrailPct), CENT)))
    else if latest.high < p.entryPrice * (1.0 + s.breakevenTriggerPct) then None
    else Some(Max(p.entryPrice, Round(Max(p.highestPrice, latest.high) * (1.0 - s.breakevenTrailPct), CENT)))
  }

  /** _loss_cap_stop_price: the stop at which the largest allowed amount is lost, rounded towards the entry. */
  function LossCapStop(p: Position, maxLoss: Option<real>): Option<real> {
    if maxLoss.None? || p.quantity == 0.0 || p.entryPrice <= 0.0 then None
    else if p.quantity < 0.0 then
      Some(Floor((p.entryPrice + maxLoss.value / Abs(p.quantity)) * 100.0 + 0.000000001) as real / 100.0)
    else
      Some(Ceil((p.entryPrice - maxLoss.value / Abs(p.quantity)) * 100.0 - 0.000000001) as real / 100.0)
  }

  /** The stop at the largest allowed distance from the entry. */
  function CapCandidate(s: Settings, p: Position): Option<real> {
    if p.stopPrice <= 0.0 || p.entryPrice <= 0.0 || IsShortOption(p) then None
    else
      var lossCap := LossCapStop(p, s.limits.maxLoss);
      if IsShort(p) then
        var cap := Round(p.entryPrice * (1.0 + s.maxStopPct), CENT);
        Some(if lossCap.Some? then Min(cap, lossCap.value) else cap)
      else
        var cap := Round(p.entryPrice * (1.0 - s.maxStopPct), CENT);
        Some(if lossCap.Some? then Max(cap, lossCap.value) else cap)
  }

  /** A candidate is emitted if it tightens the stop in force and would not trigger at the latest close. */
  predicate Accepts(p: Position, stop: real, candidate: real, close: real) {
    Tightens(p.quantity, stop, candidate) && if IsShort(p) then candidate > close else candidate < close
  }

  // ---------------------------------------------------------------- reading emitted intents back

  predicate HasExit(intents: seq<Intent>, symbol: Symbol) {
    exists i :: 0 <= i < |intents| && intents[i].Exit? && intents[i].symbol == symbol
  }

  /** The stops emitted for a symbol, in order of emission. */
  function StopsFor(intents: seq<Intent>, symbol: Symbol): seq<real> {
    if intents == [] then []
    else
      var rest, last := StopsFor(intents[..|intents| - 1], symbol), intents[|intents| - 1];
      if last.UpdateStop? && last.symbol == symbol then rest + [last.stopPrice] else rest
  }

  /** The stop in force for a later pass: the last emitted one, or the position's own. */
  function StopInForce(intents: seq<Intent>, p: Position): real {
    var stops := StopsFor(intents, p.symbol);
    StopBefore(p, stops, |stops|)
  }

  // ---------------------------------------------------------------- the passes

  datatype Pass = Trailing | ProfitTrail | Breakeven | CapUp

  /** The first loop's decision for one position. */
  function FirstDecision(s: Settings, cal: Calendar, ind: Indicators, cycle: CycleInput, p: Position): Option<Intent> {
    var bars, daily := cycle.BarsOf(p.symbol), cycle.DailyOf(p.symbol);
    if cal.pastFlatten(cycle.now) then Some(Exit(p.symbol, cycle.now, "eod_flatten"))
    else if bars == [] then None
    else
      var latest := bars[|bars| - 1];
      if cycle.now - latest.timestamp > 2 * s.timeframe then None
      else
        var reason := ExitReason(s, cal, ind, cycle.now, p, bars, daily);
        if reason.Some? then
          Some(Exit(p.symbol, if reason.value == "profit_target" then latest.timestamp else cycle.now, reason.value))
        else
          var candidate := TrailCandidate(s, ind, p, latest, daily);
          if candidate.Some? && Accepts(p, p.stopPrice, candidate.value, latest.close) then
            Some(UpdateStop(p.symbol, latest.timestamp, candidate.value, ""))
          else None
  }

  /** A later pass's decision for one position, given everything emitted before the pass. */
  function LaterDecision(
    s: Settings, cal: Calendar, cycle: CycleInput, pass: Pass, before: seq<Intent>, p: Position): Option<Intent>
    requires s.Valid()
  {
    var bars := cycle.BarsOf(p.symbol);
    if HasExit(before, p.symbol) || bars == [] then None
    else
      var latest := bars[|bars| - 1];
      var candidate := match pass
        case Trailing => None
        case ProfitTrail =>
          if s.enableProfitTrail then ProfitTrailCandidate(s, p, BarsOfDay(bars, cal, cal.day(cycle.now))) else None
        case Breakeven => if s.enableBreakeven then BreakevenCandidate(s, p, latest) else None
        case CapUp => CapCandidate(s, p);
      if candidate.Some? && Accepts(p, StopInForce(before, p), candidate.value, latest.close) then
        Some(UpdateStop(p.symbol, cycle.now, candidate.value,
          match pass
          case Trailing => ""
          case ProfitTrail => "profit_trail"
          case Breakeven => "breakeven"
          case CapUp => "stop_cap_applied"))
      else None
  }

  function Emit(decision: Option<Intent>): seq<Intent> {
    if decision.Some? then [decision.value] else []
  }

  /** Past the flatten time a symbol is exited once, however many positions name it. */
  function FirstPass(s: Settings, cal: Calendar, ind: Indicators, cycle: CycleInput, n: nat): seq<Intent>
    requires n <= |cycle.positions|
  {
    if n == 0 then []
    else
      var before, p := FirstPass(s, cal, ind, cycle, n - 1), cycle.positions[n - 1];
      if cal.pastFlatten(cycle.now) && (exists i :: 0 <= i < n - 1 && cycle.positions[i].symbol == p.symbol) then before
      else before + Emit(FirstDecision(s, cal, ind, cycle, p))
  }

  function LaterPass(
    s: Settings, cal: Calendar, cycle: CycleInput, pass: Pass, before: seq<Intent>, n: nat): seq<Intent>
    requires s.Valid() && n <= |cycle.positions|
  {
    if n == 0 then []
    else
      LaterPass(s, cal, cycle, pass, before, n - 1)
      + Emit(LaterDecision(s, cal, cycle, pass, before, cycle.positions[n - 1]))
  }

  /** Everything emitted up to and including a pass. */
  function EmittedBy(s: Settings, cal: Calendar, ind: Indicators, cycle: CycleInput, pass: Pass): seq<Intent>
    requires s.Valid()
    decreases pass.CapUp?, pass.Breakeven?, pass.ProfitTrail?
  {
    var n := |cycle.positions|;
    match pass
    case Trailing => FirstPass(s, cal, ind, cycle, n)
    case ProfitTrail =>
      var before := EmittedBy(s, cal, ind, cycle, Trailing);
      before + LaterPass(s, cal, cycle, pass, before, n)
    case Breakeven =>
      var before := EmittedBy(s, cal, ind, cycle, ProfitTrail);
      before + LaterPass(s, cal, cycle, pass, before, n)
    case CapUp =>
      var before := EmittedBy(s, cal, ind, cycle, Breakeven);
      before + LaterPass(s, cal, cycle, pass, before, n)
  }

  function PositionIntents(s: Settings, cal: Calendar, ind: Indicators, cycle: CycleInput): seq<Intent>
    requires s.Valid()
  {
    EmittedBy(s, cal, ind, cycle, CapUp)
  }

  // ---------------------------------------------------------------- the ratchet

  ghost predicate DistinctSymbols(positions: seq<Position>) {
    forall i, j :: 0 <= i < j < |positions| ==> positions[i].symbol != positions[j].symbol
  }

  /** Every stop tightens the one before it, the first the position's own, and none reaches the close. */
  ghost predicate Ladder(p: Position, stops: seq<real>, close: real) {
    forall i :: 0 <= i < |stops| ==> Accepts(p, StopBefore(p, stops, i), stops[i], close)
  }

  /** The stop in force when the i-th one is emitted. */
  function StopBefore(p: Position, stops: seq<real>, i: nat): real
    requires i <= |stops|
  {
    if i == 0 then p.stopPrice else stops[i - 1]
  }

  lemma {:induction false} LadderGrows(p: Position, stops: seq<real>, candidate: real, close: real)
    requires Ladder(p, stops, close) && Accepts(p, StopBefore(p, stops, |stops|), candidate, close)
    ensures Ladder(p, stops + [candidate], close)
  {
    var more := stops + [candidate];
    forall i | 0 <= i < |more| ensures Accepts(p, StopBefore(p, more, i), more[i], close) {
      if i < |stops| {
        assert StopBefore(p, more, i) == StopBefore(p, stops, i) && more[i] == stops[i];
      }
    }
  }

  lemma {:induction false} StopsForJoin(a: seq<Intent>, b: seq<Intent>, symbol: Symbol)
    ensures StopsFor(a + b, symbol) == StopsFor(a, symbol) + StopsFor(b, symbol)
    decreases |b|
  {
    if b == [] {
      assert a + b == a;
    } else {
      var n := |b| - 1;
      assert a + b == a + b[..n] + [b[n]];
      assert (a + b)[..|a| + n] == a + b[..n];
      StopsForJoin(a, b[..n], symbol);
    }
  }

  lemma {:induction false} HasExitJoin(a: seq<Intent>, b: seq<Intent>, symbol: Symbol)
    ensures HasExit(a + b, symbol) <==> HasExit(a, symbol) || HasExit(b, symbol)
  {
    var all := a + b;
    if HasExit(a, symbol) {
      var i :| 0 <= i < |a| && a[i].Exit? && a[i].symbol == symbol;
      assert all[i].Exit? && all[i].symbol == symbol;
    }
    if HasExit(b, symbol) {
      var i :| 0 <= i < |b| && b[i].Exit? && b[i].symbol == symbol;
      assert all[|a| + i].Exit? && all[|a| + i].symbol == symbol;
    }
  }

  lemma {:induction false} EmitOne(decision: Option<Intent>, symbol: Symbol)
    ensures StopsFor(Emit(decision), symbol)
         == if decision.Some? && decision.value.UpdateStop? && decision.value.symbol == symbol
            then [decision.value.stopPrice] else []
    ensures HasExit(Emit(decision), symbol) <==>
      decision.Some? && decision.value.Exit? && decision.value.symbol == symbol
  {
    if decision.Some? {
      assert [decision.value][..0] == [];
      assert Emit(decision)[0] == decision.value;
    }
  }

  lemma {:induction false} DecisionSymbols(
    s: Settings, cal: Calendar, ind: Indicators, cycle: CycleInput, pass: Pass, before: seq<Intent>, p: Position)
    requires s.Valid()
    ensures var d := FirstDecision(s, cal, ind, cycle, p);
            d.Some? ==> d.value.symbol == p.symbol && !d.value.Entry?
    ensures var d := LaterDecision(s, cal, cycle, pass, before, p);
            d.Some? ==> d.value.symbol == p.symbol && d.value.UpdateStop?
  {
  }

  /** One more decision about symbol q. */
  lemma {:induction false} OneMore(before: seq<Intent>, d: Option<Intent>, q: Symbol, symbol: Symbol)
    requires d.Some? ==> d.value.symbol == q
    ensures StopsFor(before + Emit(d), symbol)
         == StopsFor(before, symbol) + if q == symbol then StopsFor(Emit(d), symbol) else []
    ensures HasExit(before + Emit(d), symbol) <==> HasExit(before, symbol) || (q == symbol && HasExit(Emit(d), symbol))
  {
    StopsForJoin(before, Emit(d), symbol);
    HasExitJoin(before, Emit(d), symbol);
    EmitOne(d, symbol);
  }

  lemma {:induction false} EmptyEmission(symbol: Symbol)
    ensures StopsFor([], symbol) == [] && !HasExit([], symbol)
  {
  }

  /** A pass concerns each position through its own decision only. */
  lemma {:induction false} FirstPassFor(s: Settings, cal: Calendar, ind: Indicators, cycle: CycleInput, n: nat, k: nat)
    requires s.Valid() && DistinctSymbols(cycle.positions) && n <= |cycle.positions| && k < |cycle.positions|
    ensures var p := cycle.positions[k];
            var own := if k < n then Emit(FirstDecision(s, cal, ind, cycle, p)) else [];
            && StopsFor(FirstPass(s, cal, ind, cycle, n), p.symbol) == StopsFor(own, p.symbol)
            && (HasExit(FirstPass(s, cal, ind, cycle, n), p.symbol) <==> HasExit(own, p.symbol))
  {
    hide FirstDecision, StopsFor, HasExit, Emit;
    EmptyEmission(cycle.positions[k].symbol);
    if n > 0 {
      var p, q := cycle.positions[k], cycle.positions[n - 1];
      FirstPassFor(s, cal, ind, cycle, n - 1, k);
      var before, d := FirstPass(s, cal, ind, cycle, n - 1), FirstDecision(s, cal, ind, cycle, q);
      assert !(exists i :: 0 <= i < n - 1 && cycle.positions[i].symbol == q.symbol);
      assert FirstPass(s, cal, ind, cycle, n) == before + Emit(d);
      DecisionSymbols(s, cal, ind, cycle, Trailing, [], q);
      OneMore(before, d, q.symbol, p.symbol);
    }
  }

  lemma {:induction false} LaterPassFor(
    s: Settings, cal: Calendar, ind: Indicators, cycle: CycleInput, pass: Pass, before: seq<Intent>, n: nat, k: nat)
    requires s.Valid() && DistinctSymbols(cycle.positions) && n <= |cycle.positions| && k < |cycle.positions|
    ensures var p := cycle.positions[k];
            var own := if k < n then Emit(LaterDecision(s, cal, cycle, pass, before, p)) else [];
            && StopsFor(LaterPass(s, cal, cycle, pass, before, n), p.symbol) == StopsFor(own, p.symbol)
            && !HasExit(LaterPass(s, cal, cycle, pass, before, n), p.symbol)
  {
    hide LaterDecision, StopsFor, HasExit, Emit;
    EmptyEmission(cycle.positions[k].symbol);
    if n > 0 {
      var p, q := cycle.positions[k], cycle.positions[n - 1];
      LaterPassFor(s, cal, ind, cycle, pass, before, n - 1, k);
      var front, d := LaterPass(s, cal, cycle, pass, before, n - 1), LaterDecision(s, cal, cycle, pass, before, q);
      assert LaterPass(s, cal, cycle, pass, before, n) == front + Emit(d);
      DecisionSymbols(s, cal, ind, cycle, pass, before, q);
      OneMore(front, d, q.symbol, p.symbol);
      EmitOne(d, p.symbol);
    }
  }

  /** What the emitted intents say about position p. */
  ghost predicate Ratchets(p: Position, bars: seq<Bar>, intents: seq<Intent>) {
    && (bars != [] ==> Ladder(p, StopsFor(intents, p.symbol), bars[|bars| - 1].close))
    && (bars == [] ==> StopsFor(intents, p.symbol) == [])
    && (HasExit(intents, p.symbol) ==> StopsFor(intents, p.symbol) == [])
  }

  lemma {:induction false} FirstRatchets(s: Settings, cal: Calendar, ind: Indicators, cycle: CycleInput, k: nat)
    requires s.Valid() && DistinctSymbols(cycle.positions) && k < |cycle.positions|
    ensures Ratchets(cycle.positions[k], cycle.BarsOf(cycle.positions[k].symbol),
      EmittedBy(s, cal, ind, cycle, Trailing))
  {
    hide ExitReason, TrailCandidate;
    var p := cycle.positions[k];
    FirstPassFor(s, cal, ind, cycle, |cycle.positions|, k);
    EmitOne(FirstDecision(s, cal, ind, cycle, p), p.symbol);
  }

  lemma {:induction false} LaterRatchets(
    s: Settings, cal: Calendar, ind: Indicators, cycle: CycleInput, pass: Pass, before: seq<Intent>, k: nat)
    requires s.Valid() && DistinctSymbols(cycle.positions) && k < |cycle.positions|
    requires Ratchets(cycle.positions[k], cycle.BarsOf(cycle.positions[k].symbol), before)
    ensures Ratchets(cycle.positions[k], cycle.BarsOf(cycle.positions[k].symbol),
                     before + LaterPass(s, cal, cycle, pass, before, |cycle.positions|))
  {
    hide LaterDecision, LaterPass, StopsFor, HasExit, Emit, Ladder, Accepts;
    var p, n := cycle.positions[k], |cycle.positions|;
    var d := LaterDecision(s, cal, cycle, pass, before, p);
    LaterPassFor(s, cal, ind, cycle, pass, before, n, k);
    EmitOne(d, p.symbol);
    StopsForJoin(before, LaterPass(s, cal, cycle, pass, before, n), p.symbol);
    HasExitJoin(before, LaterPass(s, cal, cycle, pass, before, n), p.symbol);
    LaterMeans(s, cal, cycle, pass, before, p);
    if d.Some? {
      var bars := cycle.BarsOf(p.symbol);
      LadderGrows(p, StopsFor(before, p.symbol), d.value.stopPrice, bars[|bars| - 1].close);
    } else {
      assert StopsFor(before, p.symbol) + [] == StopsFor(before, p.symbol);
    }
  }

  /** What a later pass emits for a position, if anything, is a stop the position accepts next. */
  lemma {:induction false} LaterMeans(
    s: Settings, cal: Calendar, cycle: CycleInput, pass: Pass, before: seq<Intent>, p: Position)
    requires s.Valid()
    ensures var d, bars := LaterDecision(s, cal, cycle, pass, before, p), cycle.BarsOf(p.symbol);
            d.Some? ==>
              && bars != [] && !HasExit(before, p.symbol) && d.value.UpdateStop? && d.value.symbol == p.symbol
              && Accepts(p, StopBefore(p, StopsFor(before, p.symbol), |StopsFor(before, p.symbol)|), d.value.stopPrice,
                         bars[|bars| - 1].close)
  {
    hide ProfitTrailCandidate, BreakevenCandidate, CapCandidate, Accepts, StopsFor, HasExit;
  }

  /** Within one cycle the stops emitted for a position climb strictly, stay clear of the close, and exclude an exit. */
  lemma {:induction false} StopsRatchet(s: Settings, cal: Calendar, ind: Indicators, cycle: CycleInput, k: nat)
    requires s.Valid() && DistinctSymbols(cycle.positions) && k < |cycle.positions|
    ensures Ratchets(cycle.positions[k], cycle.BarsOf(cycle.positions[k].symbol), PositionIntents(s, cal, ind, cycle))
  {
    hide FirstPass, LaterPass, Ratchets;
    FirstRatchets(s, cal, ind, cycle, k);
    LaterRatchets(s, cal, ind, cycle, ProfitTrail, EmittedBy(s, cal, ind, cycle, Trailing), k);
    LaterRatchets(s, cal, ind, cycle, Breakeven, EmittedBy(s, cal, ind, cycle, ProfitTrail), k);
    LaterRatchets(s, cal, ind, cycle, CapUp, EmittedBy(s, cal, ind, cycle, Breakeven), k);
  }

  /** Offering the emitted stops in any order leaves the last rung of the ladder in force. */
  lemma {:induction false} LadderTop(p: Position, stops: seq<real>, close: real, offered: seq<real>)
    requires Ladder(p, stops, close)
    requires forall c :: c in offered <==> c in stops
    ensures Offered(p.quantity, p.stopPrice, offered) == StopBefore(p, stops, |stops|)
  {
    OfferOrderIrrelevant(p.quantity, p.stopPrice, offered, stops);
    LadderClimbs(p, stops, close);
  }

  lemma {:induction false} LadderClimbs(p: Position, stops: seq<real>, close: real)
    requires Ladder(p, stops, close)
    ensures Offered(p.quantity, p.stopPrice, stops) == StopBefore(p, stops, |stops|)
  {
    if stops != [] {
      var n := |stops| - 1;
      var front := stops[..n];
      forall i | 0 <= i < n ensures Accepts(p, StopBefore(p, front, i), front[i], close) {
        assert StopBefore(p, front, i) == StopBefore(p, stops, i) && front[i] == stops[i];
      }
      LadderClimbs(p, front, close);
      assert Accepts(p, StopBefore(p, stops, n), stops[n], close);
    }
  }

  // ---------------------------------------------------------------- the loops

  /** The first loop over the open positions. */
  method RunFirstPass(s: Settings, cal: Calendar, ind: Indicators, cycle: CycleInput) returns (intents: seq<Intent>)
    requires s.Valid()
    ensures intents == EmittedBy(s, cal, ind, cycle, Trailing)
  {
    hide FirstDecision;
    intents := [];
    var exited: set<Symbol> := {};
    for i := 0 to |cycle.positions|
      invariant intents == FirstPass(s, cal, ind, cycle, i)
      invariant cal.pastFlatten(cycle.now) ==>
        forall symbol :: symbol in exited <==> exists j :: 0 <= j < i && cycle.positions[j].symbol == symbol
    {
      var p := cycle.positions[i];
      if cal.pastFlatten(cycle.now) {
        if p.symbol in exited {
          continue;
        }
        exited := exited + {p.symbol};
      }
      var decision := FirstDecision(s, cal, ind, cycle, p);
      if decision.Some? {
        intents := intents + [decision.value];
      }
    }
  }

  /** One of the three later loops; exits and stops emitted before it are fixed when it starts. */
  method RunLaterPass(s: Settings, cal: Calendar, cycle: CycleInput, pass: Pass, before: seq<Intent>)
    returns (intents: seq<Intent>)
    requires s.Valid()
    ensures intents == before + LaterPass(s, cal, cycle, pass, before, |cycle.positions|)
  {
    hide LaterDecision;
    intents := before;
    for i := 0 to |cycle.positions|
      invariant intents == before + LaterPass(s, cal, cycle, pass, before, i)
    {
      var decision := LaterDecision(s, cal, cycle, pass, before, cycle.positions[i]);
      if decision.Some? {
        intents := intents + [decision.value];
      }
    }
  }

  method RunPositionPasses(s: Settings, cal: Calendar, ind: Indicators, cycle: CycleInput)
    returns (intents: seq<Intent>)
    requires s.Valid()
    ensures intents == PositionIntents(s, cal, ind, cycle)
  {
    intents := RunFirstPass(s, cal, ind, cycle);
    intents := RunLaterPass(s, cal, cycle, ProfitTrail, intents);
    intents := RunLaterPass(s, cal, cycle, Breakeven, intents);
    intents := RunLaterPass(s, cal, cycle, CapUp, intents);
  }
}
