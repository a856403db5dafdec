/** Values that the replay passes around: bars, orders, positions, intents and trade records. */
module Domain {

  datatype Option<+T> = None | Some(value: T)

  datatype Result<+T> = Success(value: T) | Failure

  type Symbol = string

  type Strategy = string

  /** Timestamps are microseconds since the epoch; a Day numbers calendar days in the market's time zone. */
  type Day = int

  const DAY_LENGTH := 86_400_000_000

  datatype Bar = Bar(timestamp: int, open: real, high: real, low: real, close: real, volume: real)

  /** The exchange calendar: which day an instant falls on, and when that day is flattened. */
  datatype Calendar = Calendar(
    day: int -> Day,
    flattenAt: Day -> int,
    pastFlatten: int -> bool,
    inEntryWindow: int -> bool)
  {
    ghost predicate Valid() {
      forall a, b :: a <= b ==> day(a) <= day(b)
    }
  }

  /** One quoted option contract. */
  datatype Contract = Contract(occSymbol: Symbol, bid: real, ask: real)

  /** A buy stop-limit order waiting for its fill; an option order carries the contract's symbol. */
  datatype Order = Order(
    symbol: Symbol,
    signalTimestamp: int,
    activeTimestamp: int,
    lastActiveTimestamp: int,
    stopPrice: real,
    limitPrice: real,
    initialStopPrice: real,
    quantity: real,
    strategy: Strategy,
    optionSymbol: Option<Symbol>)

  datatype Position = Position(
    symbol: Symbol,
    entryTimestamp: int,
    entryPrice: real,
    quantity: real,
    initialStopPrice: real,
    stopPrice: real,
    trailingActive: bool,
    highestPrice: real,
    lowestPrice: real,
    strategy: Strategy,
    optionSymbol: Option<Symbol>)
  {
    function RiskPerShare(): real {
      entryPrice - initialStopPrice
    }

    /** What leaving at a price earns, a unit counting as one share. */
    function Gain(price: real): real {
      (price - entryPrice) * quantity
    }

    /** The symbol a trade record names: the contract of an option position. */
    function RecordedSymbol(): Symbol {
      if optionSymbol.Some? && optionSymbol.value != "" then optionSymbol.value else symbol
    }

    function AsFill(): Fill {
      Fill(RecordedSymbol(), entryTimestamp, entryPrice, quantity, strategy)
    }
  }

  /** An entry as it was filled. */
  datatype Fill = Fill(symbol: Symbol, time: int, price: real, quantity: real, strategy: Strategy)

  /** What one engine cycle asks for. An option entry names its contract and its underlying. */
  datatype Intent =
    | Entry(symbol: Symbol, timestamp: int, quantity: real, stop: Option<real>, limit: real,
            initialStop: Option<real>, strategy: Strategy, underlying: Option<Symbol>)
    | Exit(symbol: Symbol, timestamp: int, reason: string)
    | UpdateStop(symbol: Symbol, timestamp: int, stopPrice: real, why: string)
  {
    /** The lane an intent is routed to: an option's underlying, any other intent's own symbol. */
    function LaneSymbol(): Symbol {
      if Entry? && underlying.Some? && underlying.value != "" then underlying.value else symbol
    }
  }

  datatype Trade = Trade(
    symbol: Symbol,
    entryPrice: real,
    exitPrice: real,
    quantity: real,
    entryTime: int,
    exitTime: int,
    exitReason: string,
    pnl: real,
    strategy: Strategy)
  {
    /** The fill that the record closes. */
    function EntryFill(): Fill {
      Fill(symbol, entryTime, entryPrice, quantity, strategy)
    }
  }

  /** The sum of the profit and loss over a list of trade records. */
  function TotalPnl(trades: seq<Trade>): real {
    if trades == [] then 0.0 else TotalPnl(trades[..|trades| - 1]) + trades[|trades| - 1].pnl
  }

  lemma {:induction false} TotalPnlAppend(trades: seq<Trade>, t: Trade)
    ensures TotalPnl(trades + [t]) == TotalPnl(trades) + t.pnl
  {
    assert (trades + [t])[..|trades|] == trades;
  }
}
