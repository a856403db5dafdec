/** Inputs of one engine cycle, and the settings it reads. */
module EngineTypes {
  import opened Domain
  import opened OptionLedger
  import Sizing

  datatype RankMode = CloseToEntry | RelativeVolume | Balanced

  datatype MarketContext = MarketContext(vixAboveSma: Option<bool>, sectorPassingPct: Option<real>)

  /** Durations are in microseconds. */
  datatype Settings = Settings(
    timeframe: int,
    activeBars: nat,
    slippageBps: real,
    maxOpenPositions: nat,
    maxExposurePct: real,
    limits: Sizing.Limits,
    minPositionNotional: real,
    fractionable: set<Symbol>,
    rankMode: RankMode,
    maxStopPct: real,
    enableProfitTarget: bool,
    profitTargetR: real,
    minHold: int,
    enableNoFollowThrough: bool,
    noFollowThroughAfter: int,
    noFollowThroughMinFavorable: real,
    enableGiveback: bool,
    givebackMinFavorable: real,
    givebackMaxReturn: real,
    enableEarlyLoss: bool,
    earlyLossAfter: int,
    earlyLossReturn: real,
    enableTrendExit: bool,
    trendHistory: nat,
    dailyBarMaxAgeDays: int,
    enableVwapExit: bool,
    vwapMinBars: nat,
    trailTriggerR: real,
    trailAtrMultiplier: real,
    enableProfitTrail: bool,
    profitTrailPct: real,
    enableBreakeven: bool,
    breakevenTriggerPct: real,
    breakevenTrailPct: real,
    enableRegime: bool,
    regimePeriod: nat,
    enableVix: bool,
    enableSector: bool,
    sectorMinPassingPct: real,
    minCloseToEntry: real,
    maxCloseToEntry: real,
    enableVwapEntry: bool)
  {
    /** The bounds that the configuration enforces. */
    predicate Valid() {
      && timeframe > 0
      && 1 <= activeBars <= 4
      && limits.Valid()
      && 0.0 < maxStopPct <= 0.5
      && 0.0 < profitTrailPct < 1.0
      && regimePeriod >= 1
    }
  }

  /** The indicators a cycle consults; each depends on the bars it is given and nothing else. */
  datatype Indicators = Indicators(
    trendHolds: seq<Bar> -> bool,
    shortTrendHolds: seq<Bar> -> bool,
    vwap: seq<Bar> -> Option<real>,
    atr: seq<Bar> -> Option<real>)

  datatype Signal = Signal(
    bar: Bar, entryLevel: real, relativeVolume: real, stopPrice: real, limitPrice: real, initialStopPrice: real,
    contract: Option<Contract>)

  /** A strategy: symbol, intraday bars up to the signal bar, daily bars, and the option chains on record. */
  type Evaluator = (Symbol, seq<Bar>, seq<Bar>, Option<Snapshot>) -> Option<Signal>

  /** A daily series with the mark that its closes are known to be positive. */
  datatype DailySeries = DailySeries(bars: seq<Bar>, knownClean: bool)

  datatype CycleInput = CycleInput(
    now: int,
    equity: real,
    intraday: map<Symbol, seq<Bar>>,
    daily: map<Symbol, DailySeries>,
    positions: seq<Position>,
    working: set<Symbol>,
    traded: set<(Symbol, Day)>,
    openCount: nat,
    symbols: seq<Symbol>,
    regime: Option<seq<Bar>>,
    context: Option<MarketContext>,
    chains: map<Symbol, Option<Snapshot>>)
  {
    function BarsOf(symbol: Symbol): seq<Bar> {
      if symbol in intraday then intraday[symbol] else []
    }

    function DailyOf(symbol: Symbol): seq<Bar> {
      if symbol in daily then daily[symbol].bars else []
    }

    function ChainsOf(symbol: Symbol): Option<Snapshot> {
      if symbol in chains then chains[symbol] else None
    }

    predicate Holds(symbol: Symbol) {
      exists i :: 0 <= i < |positions| && positions[i].symbol == symbol
    }
  }

  /** The bars with positive closes. */
  function PositiveCloses(bars: seq<Bar>): (r: seq<Bar>)
    ensures forall b :: b in r <==> b in bars && b.close > 0.0
  {
    if bars == [] then []
    else
      var rest := PositiveCloses(bars[..|bars| - 1]);
      assert bars == bars[..|bars| - 1] + [bars[|bars| - 1]];
      if bars[|bars| - 1].close > 0.0 then rest + [bars[|bars| - 1]] else rest
  }

  lemma {:induction false} PositiveClosesAll(bars: seq<Bar>)
    requires forall b :: b in bars ==> b.close > 0.0
    ensures PositiveCloses(bars) == bars
  {
    if bars != [] {
      var n := |bars| - 1;
      assert bars == bars[..n] + [bars[n]];
      PositiveClosesAll(bars[..n]);
    }
  }

  /** _filter_valid_bars: a series marked clean is passed through, any other is filtered. */
  function ValidBars(series: DailySeries): DailySeries {
    if series.knownClean then series else DailySeries(PositiveCloses(series.bars), true)
  }

  /** What the cycle works on once its daily series are filtered; the mark no longer says anything. */
  function Filtered(cycle: CycleInput): CycleInput {
    cycle.(daily := map s | s in cycle.daily :: DailySeries(ValidBars(cycle.daily[s]).bars, true))
  }
}
